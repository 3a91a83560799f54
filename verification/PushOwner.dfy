/**
 * Whose notifications a push service worker may show: the owner in memory, the owner in the cache, the
 * chain of writes to it, slow readers of it, and the notification tray. A step is what happens between
 * two `await`s; everything else interleaves freely.
 */
module PushOwner {
  import opened Options

  type User = nat

  datatype WriteStage = Queued | Opening | Putting

  datatype Write = Write(user: Option<User>, generation: nat, stage: WriteStage)

  /** `handler` is the job that put it up. */
  datatype Note = Note(id: nat, tag: nat, recipient: User, handler: nat)

  /** What a push still does once its notification is up: look at the owner again, take it down, or nothing. */
  datatype Then = Check | TakeDown | Nothing

  datatype Job =
    | Reading(generation: nat)
    | Fetched(generation: nat, value: Option<User>)
    | Cleaning
    | CleaningSeen(seen: set<Note>)
    | Showing(tag: nat, recipient: User, next: Then)
    | Shown(tag: nat, recipient: User)
    | ClosingTag(tag: nat, recipient: User, shows: bool)
    | ClosingSeen(tag: nat, recipient: User, shows: bool, seen: set<Note>)

  datatype Worker = Worker(
    /** `None` is undefined: this life has not learned the owner. */
    owner: Option<Option<User>>,
    generation: nat,
    cache: Option<User>,
    queue: seq<Write>,
    jobs: map<nat, Job>,
    tray: set<Note>,
    nextId: nat,
    // history: the latest message's user, the message whose write the cache holds, whether the latest
    // message's write failed, the push handlers that were rejected, and what was up when a cleanup was
    latest: Option<User>,
    cachedBy: nat,
    lost: bool,
    rejected: set<nat>,
    unswept: set<Note>)

  datatype Step =
    | Message(user: Option<User>)
    | WriteChecks
    | WriteOpens
    | WriteLands
    | WriteFails
    | Read
    | Fetch(job: nat, ok: bool)
    | Remember(job: nat)
    | Admit(recipient: User, tag: nat, cancel: bool)
    | ShowLands(job: nat)
    | Recheck(job: nat)
    | LookByTag(job: nat)
    | CloseSeen(job: nat)
    | LookAll(job: nat)
    | Sweep(job: nat)
    | Reject(job: nat)
    | Dismiss(note: Note)

  /** A new life of the worker, with what outlives it: the cache and the tray. Numbers are not given twice. */
  function Started(cache: Option<User>, tray: set<Note>, nextId: nat): Worker {
    Worker(None, 0, cache, [], map[], tray, nextId, None, 0, false, {}, {})
  }

  predicate Earlier(tray: set<Note>, nextId: nat) {
    forall n :: n in tray ==> n.id < nextId && n.handler < nextId
  }

  predicate Enabled(worker: Worker, step: Step) {
    match step
    case Message(_) => true
    case WriteChecks => worker.queue != [] && worker.queue[0].stage == Queued
    case WriteOpens => worker.queue != [] && worker.queue[0].stage == Opening
    case WriteLands => worker.queue != [] && worker.queue[0].stage == Putting
    case WriteFails => worker.queue != [] && worker.queue[0].stage != Queued
    case Read => worker.owner.None?
    case Fetch(t, _) => t in worker.jobs && worker.jobs[t].Reading?
    case Remember(t) => t in worker.jobs && worker.jobs[t].Fetched?
    case Admit(recipient, _, _) => worker.owner == Some(Some(recipient))
    case ShowLands(t) => t in worker.jobs && worker.jobs[t].Showing?
    case Recheck(t) => t in worker.jobs && worker.jobs[t].Shown?
    case LookByTag(t) => t in worker.jobs && worker.jobs[t].ClosingTag?
    case CloseSeen(t) => t in worker.jobs && worker.jobs[t].ClosingSeen?
    case LookAll(t) => t in worker.jobs && worker.jobs[t].Cleaning?
    case Sweep(t) => t in worker.jobs && worker.jobs[t].CleaningSeen?
    case Reject(t) => t in worker.jobs && !worker.jobs[t].Reading? && !worker.jobs[t].Fetched?
    case Dismiss(_) => true
  }

  function Spawn(worker: Worker, job: Job): Worker {
    worker.(jobs := worker.jobs[worker.nextId := job], nextId := worker.nextId + 1)
  }

  function Finish(worker: Worker, job: nat): Worker {
    worker.(jobs := worker.jobs - {job})
  }

  function Becomes(worker: Worker, job: nat, next: Job): Worker {
    worker.(jobs := worker.jobs[job := next])
  }

  function After(worker: Worker, step: Step): Worker
    requires Enabled(worker, step)
  {
    match step
    case Message(user) =>
      var generation := worker.generation + 1;
      Spawn(worker.(owner := Some(user), generation := generation, latest := user, lost := false,
                    queue := worker.queue + [Write(user, generation, Queued)]), Cleaning)
    // the two looks at the generation, before and after the cache is opened
    case WriteChecks => Advance(worker, Opening)
    case WriteOpens => Advance(worker, Putting)
    case WriteLands =>
      var head := worker.queue[0];
      worker.(cache := head.user, cachedBy := head.generation, queue := worker.queue[1..])
    // whatever failed, the chain goes on with the next write
    case WriteFails =>
      worker.(lost := worker.lost || worker.queue[0].generation == worker.generation, queue := worker.queue[1..])
    case Read => Spawn(worker, Reading(worker.generation))
    case Fetch(t, ok) => Becomes(worker, t, Fetched(worker.jobs[t].generation, if ok then worker.cache else None))
    case Remember(t) =>
      var job := worker.jobs[t];
      Finish(if job.generation == worker.generation then worker.(owner := Some(job.value)) else worker, t)
    case Admit(recipient, tag, cancel) =>
      Spawn(worker, if cancel then ClosingTag(tag, recipient, true) else Showing(tag, recipient, Check))
    // a notification replaces the one with its tag
    case ShowLands(t) =>
      var Showing(tag, recipient, next) := worker.jobs[t];
      var shown := worker.(tray := (set n | n in worker.tray && n.tag != tag) + {Note(worker.nextId, tag, recipient, t)},
                           nextId := worker.nextId + 1);
      (match next
       case Check => Becomes(shown, t, Shown(tag, recipient))
       case TakeDown => Becomes(shown, t, ClosingTag(tag, recipient, false))
       case Nothing => Finish(shown, t))
    case Recheck(t) =>
      var Shown(tag, recipient) := worker.jobs[t];
      if worker.owner == Some(Some(recipient)) then Finish(worker, t)
      else Becomes(worker, t, ClosingTag(tag, recipient, false))
    case LookByTag(t) =>
      var ClosingTag(tag, recipient, shows) := worker.jobs[t];
      Becomes(worker, t, ClosingSeen(tag, recipient, shows, set n | n in worker.tray && n.tag == tag))
    case CloseSeen(t) =>
      var ClosingSeen(tag, recipient, shows, seen) := worker.jobs[t];
      var closed := worker.(tray := set n | n in worker.tray && !(n in seen && n.recipient == recipient));
      if shows then Becomes(closed, t, Showing(tag, recipient, TakeDown)) else Finish(closed, t)
    case LookAll(t) => Becomes(worker, t, CleaningSeen(worker.tray))
    case Sweep(t) =>
      var seen := worker.jobs[t].seen;
      Finish(worker.(tray := set n | n in worker.tray && !(n in seen && worker.owner != Some(Some(n.recipient)))), t)
    case Reject(t) => Rejected(worker, t)
    case Dismiss(note) => worker.(tray := worker.tray - {note})
  }

  function Advance(worker: Worker, stage: WriteStage): Worker
    requires worker.queue != []
  {
    var head := worker.queue[0];
    worker.(queue := (if head.generation == worker.generation then [head.(stage := stage)] else []) + worker.queue[1..])
  }

  /** A rejection ends the handler at once; a notification already on its way still goes up. */
  function Rejected(worker: Worker, t: nat): Worker
    requires t in worker.jobs
  {
    match worker.jobs[t]
    case Showing(tag, recipient, _) =>
      Becomes(worker, t, Showing(tag, recipient, Nothing)).(rejected := worker.rejected + {t})
    case Cleaning => Finish(worker, t).(unswept := worker.unswept + worker.tray)
    case CleaningSeen(seen) => Finish(worker, t).(unswept := worker.unswept + seen)
    case _ => Finish(worker, t).(rejected := worker.rejected + {t})
  }

  function Run(worker: Worker, steps: seq<Step>): Option<Worker> {
    if steps == [] then Some(worker)
    else
      match Run(worker, steps[..|steps| - 1])
      case None => None
      case Some(before) =>
        if Enabled(before, steps[|steps| - 1]) then Some(After(before, steps[|steps| - 1])) else None
  }

  // ------------------------------------------------------------------- invariants

  /** The owner in memory is the latest message's; who still reads began before any message. */
  ghost predicate OwnerInv(worker: Worker) {
    && (worker.generation > 0 ==> worker.owner == Some(worker.latest))
    && forall t :: t in worker.jobs ==> t < worker.nextId && BeganBlank(worker.jobs[t])
  }

  predicate BeganBlank(job: Job) {
    match job
    case Reading(generation) => generation == 0
    case Fetched(generation, _) => generation == 0
    case _ => true
  }

  /** Writes run in the order of their messages, and the latest message's is the last in line or over. */
  ghost predicate CacheInv(worker: Worker) {
    var queue := worker.queue;
    && worker.cachedBy <= worker.generation
    && (forall i :: 0 <= i < |queue| ==> worker.cachedBy < queue[i].generation <= worker.generation)
    && (forall i, j :: 0 <= i < j < |queue| ==> queue[i].generation < queue[j].generation)
    && (queue != [] ==> queue[|queue| - 1].generation == worker.generation && queue[|queue| - 1].user == worker.latest)
    && (queue == [] && worker.generation > 0 && !worker.lost ==>
          worker.cache == worker.latest && worker.cachedBy == worker.generation)
  }

  /** A job that will still close this note if it is not the owner's: a cleanup, or the handler that put it up. */
  predicate Covers(worker: Worker, t: nat, note: Note)
    requires t in worker.jobs
  {
    match worker.jobs[t]
    case Cleaning => true
    case CleaningSeen(seen) => note in seen
    case Shown(tag, recipient) => note.handler == t && note.tag == tag && note.recipient == recipient
    case ClosingTag(tag, recipient, _) => note.handler == t && note.tag == tag && note.recipient == recipient
    case ClosingSeen(_, recipient, _, seen) => note.handler == t && note in seen && note.recipient == recipient
    case _ => false
  }

  ghost predicate Covered(worker: Worker, note: Note) {
    exists t :: t in worker.jobs && Covers(worker, t, note)
  }

  /** Its handler was rejected, or it was up when a cleanup was. */
  predicate LeftUp(worker: Worker, note: Note) {
    note.handler in worker.rejected || note in worker.unswept
  }

  ghost predicate TrayInv(worker: Worker) {
    && (forall t :: t in worker.jobs && worker.jobs[t].Showing? && worker.jobs[t].next == Nothing ==> t in worker.rejected)
    && (worker.generation > 0 ==>
          forall n :: n in worker.tray ==> worker.latest == Some(n.recipient) || Covered(worker, n) || LeftUp(worker, n))
  }

  lemma OwnerKept(worker: Worker, step: Step)
    requires Enabled(worker, step) && OwnerInv(worker)
    ensures OwnerInv(After(worker, step))
  {
    match step {
      case Message(user) => SpawnKeeps(worker, Cleaning);
      case Read => SpawnKeeps(worker, Reading(worker.generation));
      case Admit(recipient, tag, cancel) => SpawnKeeps(worker, After(worker, step).jobs[worker.nextId]);
      case Fetch(t, _) => assert BeganBlank(worker.jobs[t]);
      case Remember(t) => assert BeganBlank(worker.jobs[t]);
      case ShowLands(t) => JobKeeps(worker, step);
      case Recheck(t) => JobKeeps(worker, step);
      case LookByTag(t) => JobKeeps(worker, step);
      case CloseSeen(t) => JobKeeps(worker, step);
      case LookAll(t) => JobKeeps(worker, step);
      case Sweep(t) => JobKeeps(worker, step);
      case Reject(t) => JobKeeps(worker, step);
      case _ =>
    }
  }

  lemma SpawnKeeps(worker: Worker, job: Job)
    requires OwnerInv(worker) && BeganBlank(job)
    ensures OwnerInv(Spawn(worker, job))
  {
  }

  /** A step of a job that no longer reads the owner only moves that job. */
  lemma JobKeeps(worker: Worker, step: Step)
    requires Enabled(worker, step) && OwnerInv(worker)
    requires step.ShowLands? || step.Recheck? || step.LookByTag? || step.CloseSeen? || step.LookAll? || step.Sweep?
             || step.Reject?
    ensures OwnerInv(After(worker, step))
  {
    var next := After(worker, step);
    assert next.owner == worker.owner && next.generation == worker.generation && next.latest == worker.latest;
    forall t | t in next.jobs ensures t < next.nextId && BeganBlank(next.jobs[t]) {
      if t != step.job {
        assert t in worker.jobs && next.jobs[t] == worker.jobs[t];
      }
    }
  }

  lemma CacheKept(worker: Worker, step: Step)
    requires Enabled(worker, step) && CacheInv(worker)
    ensures CacheInv(After(worker, step)) && worker.cachedBy <= After(worker, step).cachedBy
  {
    if step.Message? || step.WriteChecks? || step.WriteOpens? || step.WriteLands? || step.WriteFails? {
      QueueKept(worker, step);
    } else {
      QueueUntouched(worker, step);
    }
  }

  lemma QueueUntouched(worker: Worker, step: Step)
    requires Enabled(worker, step)
    requires !step.Message? && !step.WriteChecks? && !step.WriteOpens? && !step.WriteLands? && !step.WriteFails?
    ensures var next := After(worker, step);
            && next.queue == worker.queue && next.cache == worker.cache && next.cachedBy == worker.cachedBy
            && next.generation == worker.generation && next.latest == worker.latest && next.lost == worker.lost
  {
  }

  lemma QueueKept(worker: Worker, step: Step)
    requires Enabled(worker, step) && CacheInv(worker)
    requires step.Message? || step.WriteChecks? || step.WriteOpens? || step.WriteLands? || step.WriteFails?
    ensures CacheInv(After(worker, step)) && worker.cachedBy <= After(worker, step).cachedBy
  {
    match step {
      case Message(user) =>
      case WriteChecks => Advances(worker, Opening);
      case WriteOpens => Advances(worker, Putting);
      case WriteLands => assert worker.queue[|worker.queue| - 1].generation == worker.generation;
      case WriteFails => assert worker.queue[|worker.queue| - 1].generation == worker.generation;
    }
  }

  lemma Advances(worker: Worker, stage: WriteStage)
    requires CacheInv(worker) && worker.queue != []
    ensures CacheInv(Advance(worker, stage))
  {
    var queue := worker.queue;
    if |queue| == 1 {
      assert queue[0].generation == worker.generation;
    }
  }

  lemma CoveredStill(worker: Worker, step: Step, note: Note)
    requires Enabled(worker, step) && OwnerInv(worker) && worker.generation > 0
    requires Covered(worker, note) && note in worker.tray && note in After(worker, step).tray
    ensures var next := After(worker, step);
            next.latest == Some(note.recipient) || Covered(next, note) || LeftUp(next, note)
  {
    var t :| t in worker.jobs && Covers(worker, t, note);
    var next := After(worker, step);
    if step.Message? {
      assert Covers(next, worker.nextId, note);
    } else if t in next.jobs {
      assert LeftUp(next, note) || Covers(next, t, note);
    }
  }

  lemma TrayKept(worker: Worker, step: Step)
    requires Enabled(worker, step) && OwnerInv(worker) && TrayInv(worker)
    ensures TrayInv(After(worker, step))
  {
    var next := After(worker, step);
    if next.generation > 0 {
      forall n | n in next.tray ensures next.latest == Some(n.recipient) || Covered(next, n) || LeftUp(next, n) {
        if step.Message? {
          assert Covers(next, worker.nextId, n);
        } else if n in worker.tray {
          if Covered(worker, n) {
            CoveredStill(worker, step, n);
          }
        } else {
          assert n.handler == step.job;
          assert LeftUp(next, n) || Covers(next, step.job, n);
        }
      }
    }
  }

  lemma {:induction false} RunKeeps(worker: Worker, steps: seq<Step>)
    requires OwnerInv(worker) && CacheInv(worker) && TrayInv(worker)
    ensures match Run(worker, steps)
            case None => true
            case Some(next) =>
              OwnerInv(next) && CacheInv(next) && TrayInv(next) && worker.cachedBy <= next.cachedBy
  {
    if steps != [] {
      var before, last := steps[..|steps| - 1], steps[|steps| - 1];
      RunKeeps(worker, before);
      if Run(worker, before).Some? && Enabled(Run(worker, before).value, last) {
        var middle := Run(worker, before).value;
        OwnerKept(middle, last);
        CacheKept(middle, last);
        TrayKept(middle, last);
      }
    }
  }

  ghost predicate Reachable(worker: Worker) {
    exists cache, tray, nextId, steps :: Earlier(tray, nextId) && Run(Started(cache, tray, nextId), steps) == Some(worker)
  }

  lemma ReachableKeeps(worker: Worker)
    requires Reachable(worker)
    ensures OwnerInv(worker) && CacheInv(worker) && TrayInv(worker)
  {
    var cache, tray, nextId, steps :| Earlier(tray, nextId) && Run(Started(cache, tray, nextId), steps) == Some(worker);
    RunKeeps(Started(cache, tray, nextId), steps);
  }

  // ------------------------------------------------------------------- what it is for

  /** After any message the owner in memory is that of the latest one, whatever reads and writes are under way. */
  lemma OwnerIsTheLatest(worker: Worker)
    requires Reachable(worker) && worker.generation > 0
    ensures worker.owner == Some(worker.latest)
  {
    ReachableKeeps(worker);
  }

  /** When the queue has drained, the cache agrees unless the latest message's own write failed. */
  lemma DrainedCacheAgrees(worker: Worker)
    requires Reachable(worker) && worker.generation > 0 && worker.queue == [] && !worker.lost
    ensures Some(worker.cache) == worker.owner
  {
    ReachableKeeps(worker);
  }

  /** The cache never goes back to an owner from before the one it holds. */
  lemma CacheNeverGoesBack(worker: Worker, steps: seq<Step>)
    requires Reachable(worker) && Run(worker, steps).Some?
    ensures worker.cachedBy <= Run(worker, steps).value.cachedBy
  {
    ReachableKeeps(worker);
    RunKeeps(worker, steps);
  }

  /**
   * When nothing is under way, a notification that is not the owner's was put up by a handler that was
   * rejected, or was up when a cleanup was.
   */
  lemma TrayIsTheOwners(worker: Worker)
    requires Reachable(worker) && worker.generation > 0 && worker.jobs == map[]
    ensures forall n :: n in worker.tray ==> worker.owner == Some(Some(n.recipient)) || LeftUp(worker, n)
  {
    ReachableKeeps(worker);
  }

  /** The rejection matters: a failed badge update skips the second look, and another's notification stays. */
  lemma RejectionLeavesAnothersNote()
    ensures exists worker :: Reachable(worker) && worker.generation > 0 && worker.jobs == map[]
              && exists n :: n in worker.tray && worker.owner != Some(Some(n.recipient))
  {
    var w3, s3 := OwnerLearned();
    var w5, s5 := OwnerReplaced(w3, s3);
    var w7, s7 := TraySwept(w5, s5);
    var w9, s9 := NoteLandsLate(w7, s7);
    ReachableFrom(s9, w9);
  }

  const START: Worker := Started(Some(1), {}, 0)

  lemma ReachableFrom(steps: seq<Step>, worker: Worker)
    requires Run(START, steps) == Some(worker)
    ensures Reachable(worker)
  {
  }

  lemma OwnerLearned() returns (worker: Worker, steps: seq<Step>)
    ensures Run(START, steps) == Some(worker)
    ensures worker == START.(owner := Some(Some(1)), nextId := 1)
  {
    var w1 := After(START, Read);
    var w2 := After(w1, Fetch(0, true));
    OneMore(START, [], START, Read);
    OneMore(START, [] + [Read], w1, Fetch(0, true));
    OneMore(START, [] + [Read] + [Fetch(0, true)], w2, Remember(0));
    worker, steps := After(w2, Remember(0)), [] + [Read] + [Fetch(0, true)] + [Remember(0)];
    assert w2.jobs - {0} == map[];
  }

  lemma OwnerReplaced(before: Worker, steps: seq<Step>) returns (worker: Worker, more: seq<Step>)
    requires Run(START, steps) == Some(before) && before == START.(owner := Some(Some(1)), nextId := 1)
    ensures Run(START, more) == Some(worker)
    ensures worker == before.(owner := Some(Some(2)), generation := 1, latest := Some(2), nextId := 3,
                              queue := [Write(Some(2), 1, Queued)],
                              jobs := map[1 := Showing(7, 1, Check), 2 := Cleaning])
  {
    var w4 := After(before, Admit(1, 7, false));
    OneMore(START, steps, before, Admit(1, 7, false));
    OneMore(START, steps + [Admit(1, 7, false)], w4, Message(Some(2)));
    worker, more := After(w4, Message(Some(2))), steps + [Admit(1, 7, false)] + [Message(Some(2))];
  }

  lemma TraySwept(before: Worker, steps: seq<Step>) returns (worker: Worker, more: seq<Step>)
    requires Run(START, steps) == Some(before) && before.owner == Some(Some(2)) && before.tray == {}
    requires before.jobs == map[1 := Showing(7, 1, Check), 2 := Cleaning]
    ensures Run(START, more) == Some(worker)
    ensures worker == before.(jobs := map[1 := Showing(7, 1, Check)])
  {
    var w6 := After(before, LookAll(2));
    OneMore(START, steps, before, LookAll(2));
    OneMore(START, steps + [LookAll(2)], w6, Sweep(2));
    worker, more := After(w6, Sweep(2)), steps + [LookAll(2)] + [Sweep(2)];
    assert w6.jobs - {2} == map[1 := Showing(7, 1, Check)];
  }

  lemma NoteLandsLate(before: Worker, steps: seq<Step>) returns (worker: Worker, more: seq<Step>)
    requires Run(START, steps) == Some(before) && before.jobs == map[1 := Showing(7, 1, Check)]
    ensures Run(START, more) == Some(worker) && worker.owner == before.owner && worker.generation == before.generation
    ensures worker.jobs == map[] && Note(before.nextId, 7, 1, 1) in worker.tray
  {
    var w8 := After(before, Reject(1));
    OneMore(START, steps, before, Reject(1));
    OneMore(START, steps + [Reject(1)], w8, ShowLands(1));
    worker, more := After(w8, ShowLands(1)), steps + [Reject(1)] + [ShowLands(1)];
    assert w8.jobs - {1} == map[];
  }

  lemma OneMore(start: Worker, steps: seq<Step>, worker: Worker, step: Step)
    requires Run(start, steps) == Some(worker) && Enabled(worker, step)
    ensures Run(start, steps + [step]) == Some(After(worker, step))
  {
    assert (steps + [step])[..|steps|] == steps;
  }
}
