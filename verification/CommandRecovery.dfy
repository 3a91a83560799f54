/**
 * The recovery pass as the daemon runs it, over the world the lane describes. Each `await` of the
 * pass is a call whose outcome the environment chooses; `Valid` says that everything done so far is
 * a run of the lane, so what `LaneTheorems` proves of runs holds of every execution of this code.
 *
 * `faults` counts the environment's adverse choices: a lost or failed request, a failed save or
 * removal, a crash, a server timeout, a decayed sidecar. A pass during which it does not grow is calm.
 */
module CommandRecovery {
  import opened Options
  import opened Outcomes
  import opened CommandLane
  import opened LaneHistory
  import opened LaneSafety
  import opened LaneTheorems

  datatype Reply = Ok | ReplayError | ResultInvalidError | OtherError

  datatype UploadReply = Stored | Refused(status: nat) | ConnectionLost | Unanswered

  datatype Delivery = AllAnswered | DeliveryDeferred | DeliveryThrew

  datatype PassEnd = NoCommand | Finished(id: CommandId) | Deferred | PassThrew

  function ReplyOf(verdict: Verdict): Reply {
    match verdict
    case Recorded => Ok
    case Replay => ReplayError
    case Invalid => ResultInvalidError
  }

  /** One look at an image: what became of its upload, or no reply where its sidecar was not there. */
  datatype ImageTry = ImageTry(digest: Digest, began: int, reply: Option<UploadReply>, bytes: nat)

  /** Nobody answered an upload begun before the expiry: the image is kept for the next pass. */
  predicate HeldBack(attempt: ImageTry, command: Command) {
    attempt.reply in {Some(ConnectionLost), Some(Unanswered)} && attempt.began < command.expiresAt
  }

  /** Why the image is withdrawn; it is not if it was stored. */
  function ReasonFor(attempt: ImageTry): Option<Reason> {
    match attempt.reply
    case None => Some(LostOnMachine)
    case Some(Stored) => None
    case Some(Refused(status)) => Some(RefusedByServer(status))
    case Some(_) => Some(ExpiredFirst)
  }

  /** The journal after one image was settled: delivered and still referenced, or withdrawn. */
  function SettledEntry(entry: Entry, attempt: ImageTry): (settled: Entry)
    requires entry.result.Some?
    ensures settled.result.Some? && settled.command == entry.command && settled.phase == entry.phase
  {
    match ReasonFor(attempt)
    case None => entry.(delivered := Some(DeliveredOf(entry) + [attempt.digest]))
    case Some(reason) =>
      entry.(delivered := Some(DeliveredOf(entry)),
             result := Some(Withdraw(entry.result.value, attempt.digest, reason, attempt.bytes)))
  }

  function SettledBy(entry: Entry, attempts: seq<ImageTry>): (settled: Entry)
    requires entry.result.Some?
    ensures settled.result.Some? && settled.command == entry.command && settled.phase == entry.phase
  {
    if attempts == [] then entry
    else SettledEntry(SettledBy(entry, attempts[..|attempts| - 1]), attempts[|attempts| - 1])
  }

  /** Deliveries take images away and nothing else. */
  lemma {:induction false} SettlingTrims(entry: Entry, attempts: seq<ImageTry>)
    requires entry.result.Some?
    ensures Trimmed(entry.result.value, SettledBy(entry, attempts).result.value)
    decreases |attempts|
  {
    if attempts != [] {
      var front, last := attempts[..|attempts| - 1], attempts[|attempts| - 1];
      SettlingTrims(entry, front);
      if ReasonFor(last).Some? {
        WithdrawTrims(entry.result.value, SettledBy(entry, front).result.value, last.digest, ReasonFor(last).value, last.bytes);
      }
    }
  }

  ghost predicate Tried(attempts: seq<ImageTry>, digest: Digest) {
    exists k :: 0 <= k < |attempts| && attempts[k].digest == digest
  }

  /** The attempts so far are those of the first `i` references that were not delivered before. */
  ghost predicate TriedUpTo(entry: Entry, references: seq<Digest>, i: nat, attempts: seq<ImageTry>, pending: Entry) {
    && i <= |references|
    && (forall d :: Tried(attempts, d) <==> d in references[..i] && d !in DeliveredOf(entry))
    && (forall d :: d in DeliveredOf(entry) ==> d in DeliveredOf(pending))
    && (forall d :: d in DeliveredOf(pending) ==> d in DeliveredOf(entry) || Tried(attempts, d))
  }

  lemma TriedOneMore(entry: Entry, references: seq<Digest>, i: nat, attempts: seq<ImageTry>, pending: Entry, attempt: ImageTry)
    requires i < |references| && TriedUpTo(entry, references, i, attempts, pending) && pending.result.Some?
    requires references[i] !in DeliveredOf(pending) && attempt.digest == references[i]
    ensures TriedUpTo(entry, references, i + 1, attempts + [attempt], SettledEntry(pending, attempt))
  {
    var more := attempts + [attempt];
    assert references[..i + 1] == references[..i] + [references[i]];
    forall d ensures Tried(more, d) <==> Tried(attempts, d) || d == attempt.digest {
      if Tried(attempts, d) {
        var k :| 0 <= k < |attempts| && attempts[k].digest == d;
        assert more[k].digest == d;
      }
      assert more[|attempts|].digest == attempt.digest;
    }
  }

  /** What one more attempt adds to the delivery so far. */
  lemma OneMoreAttempt(entry: Entry, references: seq<Digest>, i: nat, attempts: seq<ImageTry>, attempt: ImageTry)
    requires entry.result.Some? && i < |references|
    requires TriedUpTo(entry, references, i, attempts, SettledBy(entry, attempts))
    requires references[i] !in DeliveredOf(SettledBy(entry, attempts)) && attempt.digest == references[i]
    ensures SettledBy(entry, attempts + [attempt]) == SettledEntry(SettledBy(entry, attempts), attempt)
    ensures TriedUpTo(entry, references, i + 1, attempts + [attempt], SettledBy(entry, attempts + [attempt]))
    ensures (attempts + [attempt])[..|attempts|] == attempts
  {
    assert (attempts + [attempt])[..|attempts|] == attempts;
    TriedOneMore(entry, references, i, attempts, SettledBy(entry, attempts), attempt);
  }

  lemma TriedSkips(entry: Entry, references: seq<Digest>, i: nat, attempts: seq<ImageTry>, pending: Entry)
    requires i < |references| && TriedUpTo(entry, references, i, attempts, pending)
    requires references[i] in DeliveredOf(pending) && forall j :: 0 <= j < i ==> references[j] != references[i]
    ensures TriedUpTo(entry, references, i + 1, attempts, pending)
  {
    assert references[..i + 1] == references[..i] + [references[i]];
  }

  /** What the server records of a delivered result. */
  function Final(delivered: Outcome): Outcome {
    if Acceptable(delivered) then delivered else ResultRefused(false)
  }

  /** The server's result is what the execution returned, delivered. */
  ghost predicate AnswerRecorded(log: seq<Event>, id: CommandId, result: Outcome) {
    exists returned, delivered :: Answer(id, returned) in log && Trimmed(returned, delivered) && result == Final(delivered)
  }

  /** From one entry to the next exactly this image was settled. */
  ghost predicate SettlesOnly(before: Entry, after: Entry, digest: Digest) {
    && before.result.Some? && after.result.Some?
    && (forall d :: d in References(after.result.value) ==> d in References(before.result.value))
    && (forall d :: d != digest && d in References(before.result.value) ==> d in References(after.result.value))
    && (forall d: nat :: Undelivered(after, d) <==> Undelivered(before, d) && d != digest)
  }

  /** The loop over the first result's images has come to image `i`. */
  ghost predicate SettledUpTo(pending: Entry, references: seq<Digest>, i: nat) {
    && pending.result.Some?
    && (forall d :: d in References(pending.result.value) ==> d in references)
    && (forall k :: 0 <= k < i && k < |references| ==> !Undelivered(pending, references[k]))
    && (forall k :: i <= k < |references| ==> references[k] in References(pending.result.value))
  }

  lemma OneMoreSettled(before: Entry, after: Entry, references: seq<Digest>, i: nat)
    requires i < |references| && SettledUpTo(before, references, i) && SettlesOnly(before, after, references[i])
    requires forall j, k :: 0 <= j < k < |references| ==> references[j] != references[k]
    ensures SettledUpTo(after, references, i + 1)
  {
  }

  lemma SettledAlready(pending: Entry, references: seq<Digest>, i: nat)
    requires i < |references| && SettledUpTo(pending, references, i) && references[i] in DeliveredOf(pending)
    ensures SettledUpTo(pending, references, i + 1)
  {
  }

  lemma AllSettled(pending: Entry, references: seq<Digest>)
    requires SettledUpTo(pending, references, |references|) && pending.phase.ResultPending?
    ensures ReadyToReport(pending)
  {
  }

  ghost predicate AllSettlements(lane: Lane, settled: set<CommandId>) {
    forall id :: id in settled <==> Settled(lane, id)
  }

  function NowSettled(settled: set<CommandId>, step: Step): set<CommandId> {
    if step.SettleUndelivered? then settled + {step.id} else settled
  }

  lemma OneMoreSettlement(lane: Lane, step: Step, settled: set<CommandId>)
    requires Enabled(lane, step) && AllSettlements(lane, settled)
    ensures lane.log <= After(lane, step).log && AllSettlements(After(lane, step), NowSettled(settled, step))
  {
    var event := EventOf(lane, step);
    assert event.Some? ==> event.value.SettledByServer? == step.SettleUndelivered?;
    assert step.SettleUndelivered? ==> event == Some(SettledByServer(step.id));
  }

  /** One more step of a run. */
  lemma OneMoreStep(lane: Lane, steps: seq<Step>, step: Step, settled: set<CommandId>)
    requires Run(START, steps) == Some(lane) && Enabled(lane, step) && AllSettlements(lane, settled)
    ensures Run(START, steps + [step]) == Some(After(lane, step))
    ensures lane.log <= After(lane, step).log && AllSettlements(After(lane, step), NowSettled(settled, step))
  {
    assert (steps + [step])[..|steps|] == steps;
    OneMoreSettlement(lane, step, settled);
  }

  /** How far the delivery of this entry's images has come: `i` references are dealt with, by these attempts. */
  ghost predicate Delivering(entry: Entry, references: seq<Digest>, i: nat, attempts: seq<ImageTry>, pending: Entry) {
    && entry.result.Some? && pending == SettledBy(entry, attempts)
    && SettledUpTo(pending, references, i) && TriedUpTo(entry, references, i, attempts, pending)
    && (forall k :: 0 <= k < |attempts| ==> !HeldBack(attempts[k], entry.command))
  }

  lemma DeliverySkips(entry: Entry, references: seq<Digest>, i: nat, attempts: seq<ImageTry>, pending: Entry)
    requires Delivering(entry, references, i, attempts, pending) && i < |references|
    requires references[i] in DeliveredOf(pending) && references == References(entry.result.value)
    ensures Delivering(entry, references, i + 1, attempts, pending)
  {
    ReferencesExact(entry.result.value);
    SettledAlready(pending, references, i);
    TriedSkips(entry, references, i, attempts, pending);
  }

  lemma DeliveryGoesOn(entry: Entry, references: seq<Digest>, i: nat, attempts: seq<ImageTry>, pending: Entry, attempt: ImageTry)
    requires Delivering(entry, references, i, attempts, pending) && i < |references|
    requires attempt.digest == references[i] && references[i] !in DeliveredOf(pending)
    requires references == References(entry.result.value)
    ensures (attempts + [attempt])[..|attempts|] == attempts
    ensures SettlesOnly(pending, SettledEntry(pending, attempt), references[i]) && !HeldBack(attempt, entry.command) ==>
              Delivering(entry, references, i + 1, attempts + [attempt], SettledEntry(pending, attempt))
  {
    ReferencesExact(entry.result.value);
    OneMoreAttempt(entry, references, i, attempts, attempt);
    if SettlesOnly(pending, SettledEntry(pending, attempt), references[i]) {
      OneMoreSettled(pending, SettledEntry(pending, attempt), references, i);
    }
  }

  lemma DeliveryStarts(entry: Entry)
    requires entry.result.Some?
    ensures Delivering(entry, References(entry.result.value), 0, [], entry)
  {
  }

  lemma NextIsUndelivered(entry: Entry, references: seq<Digest>, i: nat, attempts: seq<ImageTry>, pending: Entry)
    requires Delivering(entry, references, i, attempts, pending) && i < |references| && entry.phase.ResultPending?
    ensures references[i] !in DeliveredOf(pending) ==> Undelivered(pending, references[i])
  {
  }

  lemma DeliveryEnds(entry: Entry, references: seq<Digest>, attempts: seq<ImageTry>, pending: Entry)
    requires Delivering(entry, references, |references|, attempts, pending) && entry.phase.ResultPending?
    requires references == References(entry.result.value)
    ensures ReadyToReport(pending) && forall d: nat :: Tried(attempts, d) <==> Undelivered(entry, d)
  {
    AllSettled(pending, references);
    assert references[..|references|] == references;
  }

  class Executor {
    var journal: Option<Entry>
    var sidecars: set<(CommandId, Digest)>
    var server: map<CommandId, ServerState>
    var kept: set<(CommandId, Digest)>
    var known: Known
    var log: seq<Event>
    ghost var steps: seq<Step>
    ghost var faults: nat
    /** The commands the server settled by itself. */
    ghost var settled: set<CommandId>
    /** What the last poll answered. */
    ghost var polled: Option<Command>

    function View(): Lane
      reads this
    {
      Lane(journal, sidecars, server, kept, known, log)
    }

    ghost predicate Valid()
      reads this
    {
      Run(START, steps) == Some(View()) && AllSettlements(View(), settled)
    }

    /** What happened before is still what happened. */
    twostate predicate Proceeds()
      reads this
    {
      && Valid() && old(steps) <= steps && old(log) <= log && old(faults) <= faults
      && (Calm() ==> settled == old(settled))
    }

    /** The same without a poll. */
    twostate predicate Continues()
      reads this
    {
      Proceeds() && polled == old(polled)
    }

    twostate predicate Calm()
      reads this
    {
      faults == old(faults)
    }

    /**
     * What the server may have done meanwhile: it leases more commands, an entry it holds changes only by
     * a fault, and an acknowledged one never.
     */
    twostate predicate ServerMoves()
      reads this
    {
      && old(server.Keys) <= server.Keys
      && (forall id :: id in old(server) && server[id] != old(server)[id] ==> !Calm() && !old(server)[id].Acknowledged?)
      && (forall id :: id in settled && id !in old(settled) ==> id !in old(server) || !old(server)[id].Acknowledged?)
    }

    /** What may have become of the sidecars meanwhile. */
    twostate predicate DiskMoves()
      reads this
    {
      && sidecars <= old(sidecars) && (Calm() ==> sidecars == old(sidecars))
      && forall file :: file in old(sidecars) && file !in sidecars ==> Decayed(file.0, file.1) in log
    }

    constructor ()
      ensures Valid() && View() == START
    {
      journal, sidecars, server, kept, known, log := None, {}, map[], {}, Idle, [];
      steps, faults, settled, polled := [], 0, {}, None;
    }

    /** A settlement by the server counts as a fault of the pass it falls into. */
    method Take(step: Step)
      requires Valid() && Enabled(View(), step)
      modifies this
      ensures Continues() && faults == old(faults) + if step.SettleUndelivered? then 1 else 0
      ensures View() == After(old(View()), step) && steps == old(steps) + [step]
    {
      OneMoreStep(View(), steps, step, settled);
      Become(After(View(), step));
      steps, settled := steps + [step], NowSettled(settled, step);
      faults := faults + if step.SettleUndelivered? then 1 else 0;
    }

    method Become(later: Lane)
      modifies this`journal, this`sidecars, this`server, this`kept, this`known, this`log
      ensures View() == later
    {
      journal, sidecars, server := later.journal, later.sidecars, later.server;
      kept, known, log := later.kept, later.known, later.log;
    }

    // ----------------------------------------------------------------- the environment

    /** What the server and the disk may do while the pass awaits something. */
    method Interfere()
      requires Valid()
      modifies this
      ensures Continues()
      ensures ServerMoves() && DiskMoves()
      ensures journal == old(journal) && known == old(known) && kept == old(kept)
    {
      var moves :| 0 <= moves;
      for i := 0 to moves
        invariant Continues() && ServerMoves() && DiskMoves()
        invariant journal == old(journal) && known == old(known) && kept == old(kept)
      {
        var step: Step := *;
        if (step.Lease? || step.TimeOut? || step.SettleUndelivered? || step.Decay?) && Enabled(View(), step) {
          if step.TimeOut? || step.Decay? {
            faults := faults + 1;
          }
          Take(step);
        }
      }
    }

    /** The pass throws, or the process dies: what it knew is gone. */
    method Abandon()
      requires Valid()
      modifies this
      ensures Continues() && Calm() && known.Idle? && journal == old(journal)
      ensures ServerMoves() && DiskMoves() && kept == old(kept)
    {
      Take(Forget);
    }

    // ----------------------------------------------------------------- the journal's store

    method Load() returns (entry: Attempt<Option<Entry>>)
      requires Valid() && known.Idle?
      modifies this
      ensures Continues()
      ensures ServerMoves() && DiskMoves() && journal == old(journal) && kept == old(kept)
      ensures entry.Done? ==> entry.value == journal && known == if journal.Some? then Holding else Idle
      ensures entry.Threw? ==> known.Idle?
      ensures Calm() && entry.Threw? ==> journal.Some? && !WellFormed(journal.value)
    {
      Interfere();
      var readable: bool := *;
      if !readable {
        faults := faults + 1;
        return Threw;
      }
      if journal.None? {
        return Done(None);
      }
      if !WellFormed(journal.value) {
        return Threw;
      }
      Take(Step.Load);
      return Done(journal);
    }

    /** Atomic replacement: a save that fails may or may not have landed. */
    method Save(entry: Entry) returns (ok: bool)
      requires Valid() && NextEntry(View()) == Some(entry)
      modifies this
      ensures Continues()
      ensures ServerMoves() && DiskMoves() && kept == old(kept)
      ensures ok ==> journal == Some(entry) && known == if entry.phase.Executing? then Armed else Holding
      ensures !ok ==> known.Idle? && journal in {old(journal), Some(entry)} && !Calm()
    {
      Interfere();
      ok := *;
      if ok {
        Take(Write(entry, true));
      } else {
        faults := faults + 1;
        var landed: bool := *;
        if landed {
          Take(Write(entry, false));
        } else {
          Take(Forget);
        }
      }
    }

    method ClearJournal() returns (ok: bool)
      requires Valid() && Enabled(View(), Clear)
      modifies this
      ensures Continues()
      ensures ServerMoves() && DiskMoves() && kept == old(kept)
      ensures ok ==> journal.None? && known == Cleared(old(journal).value.command.id)
      ensures !ok ==> !Calm()
    {
      Interfere();
      ok := *;
      var landed: bool := *;
      if ok || landed {
        Take(Clear);
      }
      if !ok {
        faults := faults + 1;
      }
    }

    // ----------------------------------------------------------------- the transport

    method Poll() returns (command: Attempt<Option<Command>>)
      requires Valid() && known.Idle? && journal.None?
      modifies this
      ensures Proceeds()
      ensures journal.None?
      ensures command.Done? && command.value.Some? ==>
                && known == Polled(command.value.value)
                && (Calm() ==> command.value.value.id in server && server[command.value.value.id].Leased?)
      ensures command.Done? && command.value.None? ==> known.Idle?
      ensures command.Threw? ==> known.Idle? && !Calm()
      ensures command.Done? ==> polled == command.value
    {
      Interfere();
      polled := None;
      var settles: bool, id: CommandId, result: Outcome := *, *, *;
      if settles && id in server && server[id].Leased? {
        Take(SettleUndelivered(id, result));
      }
      var leased: bool, offered: Command := *, *;
      if leased && offered.id in server && server[offered.id].Leased? {
        var answered: bool := *;
        if answered {
          Take(Step.Poll(offered));
          polled := Some(offered);
          return Done(Some(offered));
        }
      }
      var failed: bool := *;
      if failed {
        faults := faults + 1;
        return Threw;
      }
      return Done(None);
    }

    /** Sends the journaled phase's receipt. */
    method SendReceipt(recovery: Entry, receipt: Receipt) returns (reply: Reply)
      requires Valid() && known.Holding? && journal == Some(recovery) && NextReceipt(recovery) == Some(receipt)
      modifies this
      ensures Continues()
      ensures journal == old(journal) && (Calm() ==> sidecars == old(sidecars))
      ensures reply.OtherError? ==> known.Idle? && !Calm()
      ensures !reply.OtherError? ==> known.Answered? && known.receipt == receipt && reply == ReplyOf(known.verdict)
      ensures Calm() ==>
                && recovery.command.id in old(server) && recovery.command.id in server
                && var state, kept := old(server)[recovery.command.id], old(ImagesKept(View(), recovery.command.id, receipt));
                   reply == ReplyOf(Judge(state, receipt, kept))
                   && server[recovery.command.id] == AfterReceipt(state, receipt, kept)
    {
      assert recovery.command.id in server by { RunKeeps(steps); }
      Interfere();
      var reached: bool, heard: bool := *, *;
      if !(reached && heard) {
        faults := faults + 1;
      }
      Take(Send(reached, reached && heard));
      reply := if reached && heard then ReplyOf(known.verdict) else OtherError;
    }

    // ----------------------------------------------------------------- execution

    /** `execute`: it may throw, and writes a sidecar for every image its result references. */
    method Execute() returns (result: Attempt<Outcome>)
      requires Valid() && known.Armed? && journal.Some? && journal.value.phase.Executing?
      modifies this
      ensures Continues() && journal == old(journal)
      ensures Called(journal.value.command.id) in log
      ensures result.Done? ==> known == Returned(result.value) && Answer(journal.value.command.id, result.value) in log
      ensures result.Threw? ==> known.Idle? && !Calm()
    {
      Take(Step.Execute);
      assert Called(journal.value.command.id) in log;
      var outcome: Outcome := *;
      var done := KeepSidecars(References(outcome));
      if !done {
        Abandon();
        return Threw;
      }
      Take(Return(outcome));
      return Done(outcome);
    }

    /** The execution itself, and a sidecar for every image of its result; false if it throws on the way. */
    method KeepSidecars(images: seq<Digest>) returns (ok: bool)
      requires Valid() && known.Running? && journal.Some?
      modifies this
      ensures Continues() && known.Running? && journal == old(journal)
      ensures ok ==> forall digest :: digest in images ==> Written(View(), journal.value.command.id, digest)
      ensures !ok ==> !Calm()
    {
      for i := 0 to |images|
        invariant Continues() && known.Running? && journal == old(journal)
        invariant forall k :: 0 <= k < i ==> Written(View(), journal.value.command.id, images[k])
      {
        Interfere();
        ok := *;
        if !ok {
          faults := faults + 1;
          return;
        }
        Take(KeepSidecar(images[i]));
      }
      Interfere();
      ok := *;
      if !ok {
        faults := faults + 1;
      }
    }

    // ----------------------------------------------------------------- image delivery

    /**
     * One upload, begun at `began`. `bytes` is the length the result will have should this image be
     * withdrawn. An answer that never arrives counts as a failure; after the expiry it withdraws the image.
     */
    method UploadImage(digest: Digest, began: int, expired: bool, bytes: nat) returns (reply: UploadReply)
      requires Valid() && CanUpload(View(), digest) && (expired <==> began >= journal.value.command.expiresAt)
      modifies this
      ensures Continues()
      ensures ServerMoves() && DiskMoves() && journal == old(journal)
      ensures reply.Stored? ==> known == Judged(digest, Delivered)
      ensures reply.Refused? ==> known == Judged(digest, Withdrawn(RefusedByServer(reply.status), bytes))
      ensures reply.ConnectionLost? || reply.Unanswered? ==>
                && !Calm()
                && known == if expired then Judged(digest, Withdrawn(ExpiredFirst, bytes)) else Idle
    {
      Interfere();
      reply := *;
      var step;
      match reply {
        case Stored => step := Upload(digest, None, began);
        case Refused(status) => step := Upload(digest, Some(Withdrawn(RefusedByServer(status), bytes)), began);
        case _ =>
          faults := faults + 1;
          var stored: bool := *;
          step := Silence(digest, stored, if expired then Some(Withdrawn(ExpiredFirst, bytes)) else None, began);
      }
      Take(step);
    }

    /**
     * Settles one referenced image: uploaded, refused, lost or given up, and journaled; a sidecar that
     * is there but cannot be read ends the pass. `notBefore` bounds the clock from below for the whole pass.
     * An upload begun before the expiry that nobody answers ends the pass too and leaves the journal as it is.
     */
    method DeliverImage(recovery: Entry, digest: Digest, notBefore: int)
      returns (end: Delivery, pending: Entry, ghost attempt: Option<ImageTry>)
      requires Valid() && known.Holding? && journal == Some(recovery) && Undelivered(recovery, digest)
      modifies this
      ensures Continues() && journal.Some?
      ensures end.AllAnswered? ==>
                && known.Holding? && journal == Some(pending)
                && pending.command == recovery.command && pending.phase.ResultPending? && pending.result.Some?
                && SettlesOnly(recovery, pending, digest)
      ensures !end.AllAnswered? ==> known.Idle? && !Calm()
      ensures ServerMoves()
      ensures notBefore >= recovery.command.expiresAt ==> !end.DeliveryDeferred?
      ensures attempt.None? ==> end.DeliveryThrew? && journal == Some(recovery)
      ensures attempt.Some? ==>
                && attempt.value.digest == digest && attempt.value.began >= notBefore
                && (attempt.value.reply.None? ==>
                      Decayed(recovery.command.id, digest) in log
                      && (Calm() ==> (recovery.command.id, digest) !in old(sidecars)))
                && if HeldBack(attempt.value, recovery.command)
                   then journal == Some(recovery)
                        && end == if attempt.value.reply == Some(Unanswered) then DeliveryDeferred else DeliveryThrew
                   else !end.DeliveryDeferred? && journal in {Some(recovery), Some(SettledEntry(recovery, attempt.value))}
                        && (end.AllAnswered? ==> pending == SettledEntry(recovery, attempt.value))
    {
      var reason, bytes;
      end, reason, bytes, attempt := JudgeImage(recovery, digest, notBefore);
      pending := recovery;
      if end.AllAnswered? {
        var saved;
        saved, pending := JournalProgress(recovery, digest, reason, bytes, attempt.value);
        end := if saved then AllAnswered else DeliveryThrew;
      }
    }

    /** What is to be journaled of the image, if anything: `AllAnswered` says that there is something. */
    method JudgeImage(recovery: Entry, digest: Digest, notBefore: int)
      returns (end: Delivery, reason: Option<Reason>, bytes: nat, ghost attempt: Option<ImageTry>)
      requires Valid() && known.Holding? && journal == Some(recovery) && Undelivered(recovery, digest)
      modifies this
      ensures Continues() && ServerMoves() && journal == Some(recovery)
      ensures attempt.Some? ==>
                && attempt.value.digest == digest && attempt.value.began >= notBefore && attempt.value.bytes == bytes
                && (attempt.value.reply.None? ==>
                      Decayed(recovery.command.id, digest) in log
                      && (Calm() ==> (recovery.command.id, digest) !in old(sidecars)))
      ensures end.AllAnswered? ==>
                && attempt.Some? && !HeldBack(attempt.value, recovery.command) && reason == ReasonFor(attempt.value)
                && known == Judged(digest, if reason.None? then Delivered else Withdrawn(reason.value, bytes))
      ensures !end.AllAnswered? ==>
                && known.Idle? && !Calm() && (attempt.None? ==> end.DeliveryThrew?)
                && (attempt.Some? ==>
                      && HeldBack(attempt.value, recovery.command)
                      && end == if attempt.value.reply == Some(Unanswered) then DeliveryDeferred else DeliveryThrew)
    {
      end, reason, bytes, attempt := AllAnswered, None, 0, None;
      Interfere();
      var readable: bool := *;
      if !readable {
        faults := faults + 1;
        Abandon();
        end := DeliveryThrew;
        return;
      }
      bytes :| 0 <= bytes;
      var now: int :| notBefore <= now;
      if (recovery.command.id, digest) !in sidecars {
        assert Decayed(recovery.command.id, digest) in log by { RunKeeps(steps); }
        reason := Some(LostOnMachine);
        attempt := Some(ImageTry(digest, now, None, bytes));
        Take(Missing(digest, bytes));
        return;
      }
      var expired := !(now < recovery.command.expiresAt);
      var reply := UploadImage(digest, now, expired, bytes);
      attempt := Some(ImageTry(digest, now, Some(reply), bytes));
      match reply {
        case Stored =>
        case Refused(status) => reason := Some(RefusedByServer(status));
        case _ =>
          if expired {
            reason := Some(ExpiredFirst);
          } else {
            end := if reply.ConnectionLost? then DeliveryThrew else DeliveryDeferred;
          }
      }
    }

    /** Journals one settled image before anything else is sent. */
    method JournalProgress(recovery: Entry, digest: Digest, reason: Option<Reason>, bytes: nat, ghost attempt: ImageTry)
      returns (saved: bool, pending: Entry)
      requires Valid() && journal == Some(recovery) && Undelivered(recovery, digest)
      requires attempt.digest == digest && attempt.bytes == bytes && ReasonFor(attempt) == reason
      requires known == Judged(digest, if reason.None? then Delivered else Withdrawn(reason.value, bytes))
      modifies this
      ensures Continues() && ServerMoves() && journal.Some?
      ensures saved ==>
                && known.Holding? && journal == Some(pending)
                && pending.command == recovery.command && pending.phase.ResultPending? && pending.result.Some?
                && SettlesOnly(recovery, pending, digest)
      ensures pending == SettledEntry(recovery, attempt) && journal in {Some(recovery), Some(pending)}
      ensures !saved ==> known.Idle? && !Calm()
    {
      var result, delivered := recovery.result.value, DeliveredOf(recovery);
      if reason.None? {
        delivered := delivered + [digest];
      } else {
        WithdrawReferences(result, digest, reason.value, bytes);
        result := Withdraw(result, digest, reason.value, bytes);
      }
      pending := recovery.(delivered := Some(delivered), result := Some(result));
      saved := Save(pending);
    }

    /**
     * `deliverExecutorCommandAttachments`: on return every referenced image is answered or withdrawn, each
     * undelivered one by one attempt, in the way its reply says. While the command is live an image nobody
     * answered for is withdrawn by no attempt, but ends the pass with what was settled before it journaled.
     */
    method Deliver(recovery: Entry, notBefore: int)
      returns (end: Delivery, pending: Entry, ghost attempts: seq<ImageTry>)
      requires Valid() && known.Holding? && journal == Some(recovery)
      requires recovery.phase.ResultPending? && recovery.result.Some?
      modifies this
      ensures Continues() && journal.Some?
      ensures end.AllAnswered? ==>
                && known.Holding? && journal == Some(pending) && ReadyToReport(pending)
                && pending.command == recovery.command
      ensures !end.AllAnswered? ==> known.Idle? && !Calm()
      ensures ServerMoves()
      // A pass that runs wholly after the expiry never defers.
      ensures notBefore >= recovery.command.expiresAt ==> !end.DeliveryDeferred?
      ensures end.AllAnswered? ==>
                && pending == SettledBy(recovery, attempts)
                && (forall k :: 0 <= k < |attempts| ==> !HeldBack(attempts[k], recovery.command))
                && (forall d: nat :: Tried(attempts, d) <==> Undelivered(recovery, d))
      ensures end.DeliveryDeferred? ==>
                && attempts != [] && HeldBack(attempts[|attempts| - 1], recovery.command)
                && journal == Some(SettledBy(recovery, attempts[..|attempts| - 1]))
    {
      pending, attempts := recovery, [];
      var references := References(recovery.result.value);
      DeliveryStarts(recovery);
      for i := 0 to |references|
        invariant Continues() && ServerMoves() && known.Holding? && journal == Some(pending)
        invariant Delivering(recovery, references, i, attempts, pending)
      {
        if references[i] in DeliveredOf(pending) {
          DeliverySkips(recovery, references, i, attempts, pending);
          continue;
        }
        end, pending, attempts := DeliverNext(recovery, references, i, pending, attempts, notBefore);
        if !end.AllAnswered? {
          return;
        }
      }
      DeliveryEnds(recovery, references, attempts, pending);
      end := AllAnswered;
    }

    /** One turn of the loop over the references. */
    method DeliverNext(recovery: Entry, references: seq<Digest>, i: nat, before: Entry, ghost tried: seq<ImageTry>, notBefore: int)
      returns (end: Delivery, pending: Entry, ghost attempts: seq<ImageTry>)
      requires Valid() && known.Holding? && journal == Some(before)
      requires recovery.phase.ResultPending? && recovery.result.Some? && references == References(recovery.result.value)
      requires i < |references| && references[i] !in DeliveredOf(before)
      requires Delivering(recovery, references, i, tried, before)
      modifies this
      ensures Continues() && ServerMoves() && journal.Some?
      ensures end.AllAnswered? ==>
                known.Holding? && journal == Some(pending) && Delivering(recovery, references, i + 1, attempts, pending)
      ensures !end.AllAnswered? ==> known.Idle? && !Calm()
      ensures notBefore >= recovery.command.expiresAt ==> !end.DeliveryDeferred?
      ensures end.DeliveryDeferred? ==>
                && attempts != [] && HeldBack(attempts[|attempts| - 1], recovery.command)
                && journal == Some(SettledBy(recovery, attempts[..|attempts| - 1]))
    {
      ghost var attempt;
      NextIsUndelivered(recovery, references, i, tried, before);
      end, pending, attempt := DeliverImage(before, references[i], notBefore);
      attempts := tried;
      if attempt.Some? {
        DeliveryGoesOn(recovery, references, i, tried, before, attempt.value);
        attempts := tried + [attempt.value];
      }
    }

    method ReleaseImages()
      requires Valid() && known.Cleared?
      modifies this
      ensures Continues() && known.Idle?
      ensures ServerMoves() && journal == old(journal)
      ensures Calm() ==> FolderOf(sidecars, old(known).id) == {}
    {
      Interfere();
      var left: set<Digest> := *;
      if left != {} {
        faults := faults + 1;
      }
      Take(Release(left));
    }

    /**
     * At daemon start, every sidecar folder but the journaled command's is removed. It throws where the
     * journal cannot be read, and then removes nothing, or where a folder cannot be removed.
     */
    method SweepAttachments() returns (swept: bool)
      requires Valid() && known.Idle?
      modifies this
      ensures Continues() && ServerMoves() && journal == old(journal) && known.Idle? && sidecars <= old(sidecars)
      ensures forall file :: file in old(sidecars) && Journaled(View(), file.0) && file !in sidecars ==>
                !Calm() && Decayed(file.0, file.1) in log
      ensures swept ==> forall id :: !Journaled(View(), id) ==> FolderOf(sidecars, id) == {}
      ensures journal.Some? && !WellFormed(journal.value) ==> !swept && DiskMoves()
      ensures Calm() && !swept ==> journal.Some? && !WellFormed(journal.value)
    {
      Interfere();
      if journal.Some? && !WellFormed(journal.value) {
        return false;
      }
      var readable: bool := *;
      if !readable {
        faults := faults + 1;
        return false;
      }
      Interfere();
      var kept: set<(CommandId, Digest)> := *;
      swept := kept == {};
      if !swept {
        faults := faults + 1;
      }
      Take(Sweep(kept));
    }

    // ----------------------------------------------------------------- the pass

    /** `accepted_pending`: the accepted receipt, then `started_pending`, or the unknown outcome if fenced. */
    method Accept(recovery: Entry) returns (ok: bool, next: Entry)
      requires Valid() && known.Holding? && journal == Some(recovery) && recovery.phase.AcceptedPending?
      modifies this
      ensures Continues()
      ensures ok ==>
                && known.Holding? && journal == Some(next) && next.command == recovery.command
                && (next.phase.StartedPending? || next == Terminal(recovery))
      ensures !ok ==> known.Idle? && !Calm()
      ensures Calm() && old(Awaits(recovery, Leased)) ==> next.phase.StartedPending? && Awaits(next, Accepted)
    {
      next := recovery;
      var reply := SendReceipt(recovery, AcceptedReceipt);
      if !reply.Ok? {
        if !reply.ReplayError? {
          assert reply.OtherError? by { RunKeeps(steps); }
          Abandon();
          return false, next;
        }
        next := Terminal(recovery);
        ok := Save(next);
        return;
      }
      next := recovery.(phase := StartedPending);
      ok := Save(next);
    }

    /** `started_pending`: the started receipt, then `executing`, or the unknown outcome if fenced. */
    method StartCommand(recovery: Entry) returns (ok: bool, next: Entry, executionStartedHere: bool)
      requires Valid() && known.Holding? && journal == Some(recovery) && recovery.phase.StartedPending?
      modifies this
      ensures Continues()
      ensures ok ==>
                && journal == Some(next) && next.command == recovery.command
                && if executionStartedHere then known.Armed? && next.phase.Executing?
                   else known.Holding? && next == Terminal(recovery)
      ensures !ok ==> known.Idle? && !Calm()
      ensures Calm() && old(Awaits(recovery, Accepted)) ==> executionStartedHere
    {
      next, executionStartedHere := recovery, false;
      var reply := SendReceipt(recovery, StartedReceipt);
      if !reply.Ok? {
        if !reply.ReplayError? {
          assert reply.OtherError? by { RunKeeps(steps); }
          Abandon();
          ok := false;
          return;
        }
        next := Terminal(recovery);
        ok := Save(next);
        return;
      }
      next := recovery.(phase := Executing);
      ok := Save(next);
      executionStartedHere := ok;
    }

    /** `executing`: the execution this pass journaled, or the unknown outcome of an earlier one. */
    method ExecuteOrGiveUp(recovery: Entry, executionStartedHere: bool) returns (ok: bool, next: Entry)
      requires Valid() && journal == Some(recovery) && recovery.phase.Executing?
      requires if executionStartedHere then known.Armed? else known.Holding?
      modifies this
      ensures Continues()
      ensures ok ==>
                && known.Holding? && journal == Some(next) && next.command == recovery.command
                && next.phase.ResultPending? && next.result.Some?
                && (executionStartedHere ==>
                      Called(recovery.command.id) in log && Answer(recovery.command.id, next.result.value) in log)
                && (!executionStartedHere ==> next == Terminal(recovery))
      ensures !ok ==> known.Idle? && !Calm()
    {
      next := recovery;
      var result := UnknownOutcome;
      if executionStartedHere {
        var executed := Execute();
        if executed.Threw? {
          return false, next;
        }
        result := executed.value;
      }
      next := Entry(recovery.command, ResultPending, Some(result), None);
      ok := Save(next);
    }

    /**
     * The result's receipt. A refused result is replaced, and the replacement journaled before it is
     * sent; a refused replacement is not replaced again.
     */
    method ReportResult(recovery: Entry) returns (ok: bool)
      requires Valid() && known.Holding? && journal == Some(recovery) && ReadyToReport(recovery)
      modifies this
      ensures Continues() && journal.Some?
      ensures ok ==> Enabled(View(), Clear) && journal.value.command == recovery.command
      ensures ok ==> journal.value.result == Some(Final(recovery.result.value))
      ensures !ok ==> known.Idle? && (!Calm() || recovery.command.id in settled)
    {
      var reply := SendReceipt(recovery, ResultReceipt(recovery.result.value));
      if !reply.Ok? {
        if !reply.ResultInvalidError? || IsRefusedReplacement(recovery.result.value) {
          assert reply.OtherError? || Settled(View(), recovery.command.id) by { RunKeeps(steps); }
          Abandon();
          return false;
        }
        assert !Acceptable(recovery.result.value) by { RunKeeps(steps); }
        ok := ReportReplacement(recovery);
        return;
      }
      assert Acceptable(recovery.result.value) by { RunKeeps(steps); }
      ok := true;
    }

    /** The replacement is journaled, then sent. */
    method ReportReplacement(recovery: Entry) returns (ok: bool)
      requires Valid() && journal == Some(recovery)
      requires recovery.phase.ResultPending? && recovery.result.Some?
      requires NextEntry(View()) == Some(recovery.(result := Some(ResultRefused(false))))
      modifies this
      ensures Continues() && journal.Some?
      ensures ok ==> Enabled(View(), Clear) && journal.value.command == recovery.command
      ensures ok ==> journal.value.result == Some(ResultRefused(false))
      ensures !ok ==> known.Idle? && (!Calm() || recovery.command.id in settled)
    {
      var replacement := recovery.(result := Some(ResultRefused(false)));
      ok := Save(replacement);
      if !ok {
        return;
      }
      var reply := SendReceipt(replacement, ResultReceipt(ResultRefused(false)));
      if !reply.Ok? {
        assert reply.OtherError? || Settled(View(), recovery.command.id) by { RunKeeps(steps); }
        Abandon();
        ok := false;
      }
    }

    /** `result_pending`: the images, the result's receipt, and the journal lets go. */
    method Report(recovery: Entry, notBefore: int) returns (end: PassEnd, ghost delivered: Outcome)
      requires Valid() && known.Holding? && journal == Some(recovery)
      requires recovery.phase.ResultPending? && recovery.result.Some?
      modifies this
      ensures Continues() && known.Idle?
      ensures !end.NoCommand? && (end.Finished? ==> end.id == recovery.command.id && journal.None?)
      ensures end.Finished? ==>
                && end.id in server && server[end.id].Acknowledged?
                && (end.id in settled ==> server[end.id].result == UnknownOutcome)
                && Trimmed(recovery.result.value, delivered) && server[end.id].result == Final(delivered)
      ensures Calm() && recovery.command.id !in settled ==> end.Finished? && FolderOf(sidecars, recovery.command.id) == {}
      ensures notBefore >= recovery.command.expiresAt ==> !end.Deferred?
    {
      ghost var attempts;
      var delivery, pending;
      delivery, pending, attempts := Deliver(recovery, notBefore);
      delivered := if pending.result.Some? then pending.result.value else UnknownOutcome;
      if !delivery.AllAnswered? {
        end := if delivery.DeliveryDeferred? then Deferred else PassThrew;
        return;
      }
      SettlingTrims(recovery, attempts);
      var reported := ReportResult(pending);
      if !reported {
        end := PassThrew;
        return;
      }
      var cleared := LetGo(recovery.command.id);
      end := if cleared then Finished(recovery.command.id) else PassThrew;
    }

    /** The journal lets go of a command whose result the server holds, and then its sidecars go. */
    method LetGo(id: CommandId) returns (cleared: bool)
      requires Valid() && Enabled(View(), Clear) && journal.value.command.id == id
      modifies this
      ensures Continues() && known.Idle?
      ensures cleared ==> journal.None?
      ensures id in server && server[id].Acknowledged? && (id in settled ==> server[id].result == UnknownOutcome)
      ensures Some(server[id].result) == old(journal).value.result
      ensures Calm() ==> cleared && FolderOf(sidecars, id) == {}
    {
      assert id in server && server[id].Acknowledged? && Some(server[id].result) == journal.value.result by {
        RunKeeps(steps);
      }
      assert id in settled ==> server[id].result == UnknownOutcome by {
        RunKeeps(steps);
        assert LogInv(View(), id);
      }
      cleared := ClearJournal();
      if cleared {
        ReleaseImages();
      } else {
        Abandon();
      }
    }

    /** The server holds the entry's command in state `state`. */
    ghost predicate Awaits(entry: Entry, state: ServerState)
      reads this
    {
      entry.command.id in server && server[entry.command.id] == state
    }

    /** The journaled command, or else a polled one, journaled before anything is said about it. */
    method LoadOrPoll() returns (ok: bool, entry: Option<Entry>)
      requires Valid() && known.Idle?
      modifies this
      ensures Proceeds()
      ensures !ok || entry.None? ==> known.Idle?
      ensures ok && entry.None? ==> old(journal).None? && journal.None?
      ensures ok && entry.Some? ==> known.Holding? && journal == entry
      ensures ok && old(journal).Some? ==> entry == old(journal)
      ensures ok && old(journal).None? && entry.Some? ==>
                entry.value.phase.AcceptedPending? && (Calm() ==> Awaits(entry.value, Leased))
      ensures ok && old(journal).None? ==> polled == if entry.Some? then Some(entry.value.command) else None
      ensures !ok && Calm() ==> old(journal).Some? && !WellFormed(old(journal).value)
    {
      var loaded := Load();
      if loaded.Threw? {
        return false, None;
      }
      if loaded.value.Some? {
        return true, loaded.value;
      }
      var command := Poll();
      if command.Threw? {
        return false, None;
      }
      if command.value.None? {
        return true, None;
      }
      var recovery := Entry(command.value.value, AcceptedPending, None, None);
      ok := Save(recovery);
      entry := Some(recovery);
    }

    /** From whatever phase was journaled to `result_pending`. */
    method Resume(entry: Entry) returns (ok: bool, recovery: Entry)
      requires Valid() && known.Holding? && journal == Some(entry)
      modifies this
      ensures Continues()
      ensures ok ==>
                && known.Holding? && journal == Some(recovery) && recovery.command == entry.command
                && recovery.phase.ResultPending? && recovery.result.Some?
      ensures !ok ==> known.Idle? && !Calm()
      ensures ok && Calm() && entry.phase.AcceptedPending? && old(Awaits(entry, Leased)) ==>
                Called(entry.command.id) in log && Answer(entry.command.id, recovery.result.value) in log
    {
      ok, recovery := true, entry;
      var executionStartedHere := false;
      if recovery.phase.AcceptedPending? {
        ok, recovery := Accept(recovery);
        if !ok {
          return;
        }
      }
      if recovery.phase.StartedPending? {
        ok, recovery, executionStartedHere := StartCommand(recovery);
        if !ok {
          return;
        }
      }
      if recovery.phase.Executing? {
        ok, recovery := ExecuteOrGiveUp(recovery, executionStartedHere);
        if !ok {
          return;
        }
      }
      assert recovery.result.Some? by { RunKeeps(steps); }
    }

    /**
     * `recoverOrPollExecutorCommand`. Whatever the environment does, the pass is a run of the lane. A
     * calm pass over a readable journal, whose command the server has not settled by itself, empties the
     * lane: the command's result is on record at the server and its folder is gone. A command polled by
     * that pass was executed by it, and what is on record is what it returned, minus images; or the
     * replacement, exactly where that was not acceptable. What a poll answered is not dropped.
     */
    method RecoverOrPoll(notBefore: int) returns (end: PassEnd)
      requires Valid() && known.Idle?
      modifies this
      ensures Proceeds() && known.Idle?
      ensures end.NoCommand? ==> old(journal).None? && journal.None? && polled.None?
      ensures Calm() && old(journal).None? && polled.Some? ==> end == Finished(polled.value.id)
      ensures end.Finished? ==>
                && journal.None? && end.id in server && server[end.id].Acknowledged?
                && Accounted(View(), end.id, server[end.id].result)
                && (old(journal).Some? ==> end.id == old(journal).value.command.id)
      ensures Calm() && (old(journal).Some? ==>
                            WellFormed(old(journal).value) && old(journal).value.command.id !in settled) ==>
                end.NoCommand? || (end.Finished? && FolderOf(sidecars, end.id) == {})
      ensures Calm() && old(journal).None? && end.Finished? ==>
                Called(end.id) in log && AnswerRecorded(log, end.id, server[end.id].result)
      ensures end.Deferred? && old(journal).Some? ==> notBefore < old(journal).value.command.expiresAt
    {
      var read, entry := LoadOrPoll();
      if !read {
        return PassThrew;
      }
      if entry.None? {
        return NoCommand;
      }
      assert Awaits(entry.value, Leased) ==> entry.value.command.id !in settled by {
        RunKeeps(steps);
        assert LogInv(View(), entry.value.command.id);
      }
      var ok, recovery := Resume(entry.value);
      if !ok {
        return PassThrew;
      }
      ghost var delivered;
      end, delivered := Report(recovery, notBefore);
      if end.Finished? && end.id !in settled {
        RecordedResultsAreAccounted(View(), end.id);
      }
    }

    /**
     * A daemon's life and the ones after it: each starts with a sweep and makes any number of passes,
     * one after another, and may end anywhere.
     */
    method Live(daemons: nat)
      requires Valid() && known.Idle?
      modifies this
      ensures Proceeds()
      ensures forall id :: Calls(log, id) <= 1
      ensures forall id, d :: Settlements(log, id, d) <= 1 + Losses(log, id, d)
    {
      for daemon := 0 to daemons
        invariant Proceeds() && known.Idle?
      {
        var swept := SweepAttachments();
        var passes :| 0 <= passes;
        for pass := 0 to passes
          invariant Proceeds() && known.Idle?
        {
          var clock: int := *;
          var end := RecoverOrPoll(clock);
        }
      }
      forall id ensures Calls(log, id) <= 1 {
        ExecutedAtMostOnce(View(), id);
      }
      forall id, d ensures Settlements(log, id, d) <= 1 + Losses(log, id, d) {
        ImageSettledOncePerLoss(View(), id, d);
      }
    }
  }
}
