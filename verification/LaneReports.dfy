/**
 * What the lane reports of an execution: the answer it returned, image by image, and why it ever reports
 * anything else. The invariants here stand beside those of `LaneSafety`.
 */
module LaneReports {
  import opened Options
  import opened Outcomes
  import opened CommandLane
  import opened LaneHistory
  import opened LaneSafety
  import opened LaneTheorems

  /** This image was withdrawn, for this reason. */
  ghost predicate Explained(log: seq<Event>, id: CommandId, digest: Digest, reason: Reason) {
    exists bytes, began :: ImageSettled(id, digest, Withdrawn(reason, bytes), began) in log
  }

  ghost predicate StoredBefore(log: seq<Event>, id: CommandId, digest: Digest) {
    exists began :: ImageSettled(id, digest, Delivered, began) in log
  }

  /** `result` is the answer but for images, each withdrawn for the reason that stands in its place. */
  ghost predicate Derived(log: seq<Event>, id: CommandId, returned: Outcome, result: Outcome) {
    && Trimmed(returned, result)
    && (returned.Document? ==>
          forall i :: 0 <= i < |result.items| && result.items[i] != returned.items[i] ==>
            Explained(log, id, returned.items[i].digest, result.items[i].reason))
  }

  /** A replay fence was heard before the execution, or a pass found `executing` left by an earlier one. */
  ghost predicate GaveUp(log: seq<Event>, id: CommandId) {
    || FoundExecuting(id) in log
    || Sent(id, AcceptedReceipt, Some(Replay)) in log
    || Sent(id, StartedReceipt, Some(Replay)) in log
  }

  /** The server was heard to refuse a result for its shape. */
  ghost predicate RefusalHeard(log: seq<Event>, id: CommandId) {
    exists result :: !Acceptable(result) && Sent(id, ResultReceipt(result), Some(Invalid)) in log
  }

  /** What stands for this answer: the answer itself, or the replacement once the server refused it. */
  ghost predicate Reports(log: seq<Event>, id: CommandId, returned: Outcome, result: Outcome) {
    Derived(log, id, returned, result) || (result == ResultRefused(false) && RefusalHeard(log, id))
  }

  /** Every result has a cause of its own. */
  ghost predicate Origin(log: seq<Event>, id: CommandId, result: Outcome) {
    || (result == UnknownOutcome && GaveUp(log, id))
    || (result == ResultRefused(false) && RefusalHeard(log, id))
    || exists returned :: Answer(id, returned) in log && Derived(log, id, returned, result)
  }

  lemma DerivedGrows(log: seq<Event>, longer: seq<Event>, id: CommandId, returned: Outcome, result: Outcome)
    requires log <= longer && Derived(log, id, returned, result)
    ensures Derived(longer, id, returned, result)
  {
    if returned.Document? {
      forall i | 0 <= i < |result.items| && result.items[i] != returned.items[i]
        ensures Explained(longer, id, returned.items[i].digest, result.items[i].reason)
      {
        var bytes, began :|
          ImageSettled(id, returned.items[i].digest, Withdrawn(result.items[i].reason, bytes), began) in log;
        assert ImageSettled(id, returned.items[i].digest, Withdrawn(result.items[i].reason, bytes), began) in longer;
      }
    }
  }

  lemma ReportsGrow(log: seq<Event>, longer: seq<Event>, id: CommandId, returned: Outcome, result: Outcome)
    requires log <= longer && Reports(log, id, returned, result)
    ensures Reports(longer, id, returned, result)
  {
    if Derived(log, id, returned, result) {
      DerivedGrows(log, longer, id, returned, result);
    } else {
      var refused :| !Acceptable(refused) && Sent(id, ResultReceipt(refused), Some(Invalid)) in log;
      assert Sent(id, ResultReceipt(refused), Some(Invalid)) in longer;
    }
  }

  lemma OriginGrows(log: seq<Event>, longer: seq<Event>, id: CommandId, result: Outcome)
    requires log <= longer && Origin(log, id, result)
    ensures Origin(longer, id, result)
  {
    if result == ResultRefused(false) && RefusalHeard(log, id) {
      var refused :| !Acceptable(refused) && Sent(id, ResultReceipt(refused), Some(Invalid)) in log;
      assert Sent(id, ResultReceipt(refused), Some(Invalid)) in longer;
    } else if !(result == UnknownOutcome && GaveUp(log, id)) {
      var returned :| Answer(id, returned) in log && Derived(log, id, returned, result);
      DerivedGrows(log, longer, id, returned, result);
      assert Answer(id, returned) in longer;
    }
  }

  /** One more image withdrawn, for a reason that was settled for it. */
  lemma WithdrawDerives(log: seq<Event>, id: CommandId, returned: Outcome, result: Outcome, digest: Digest, reason: Reason, bytes: nat)
    requires Derived(log, id, returned, result) && Explained(log, id, digest, reason)
    ensures Derived(log, id, returned, Withdraw(result, digest, reason, bytes))
  {
    WithdrawTrims(returned, result, digest, reason, bytes);
    if returned.Document? {
      var later := Withdraw(result, digest, reason, bytes);
      forall i | 0 <= i < |later.items| && later.items[i] != returned.items[i]
        ensures Explained(log, id, returned.items[i].digest, later.items[i].reason)
      {
        if result.items[i] == returned.items[i] {
          assert Names(returned.items[i], digest);
        }
      }
    }
  }

  // ------------------------------------------------------------------- the invariants

  /** What the pass has learned stands in the log. */
  ghost predicate HeardInv(lane: Lane) {
    lane.journal.Some? ==>
      var id := lane.journal.value.command.id;
      && (lane.known.Answered? ==> Sent(id, lane.known.receipt, Some(lane.known.verdict)) in lane.log)
      && (lane.known.Holding? && lane.journal.value.phase.Executing? ==> FoundExecuting(id) in lane.log)
      && (lane.known.Judged? ==>
            match lane.known.judgement
            case Delivered => StoredBefore(lane.log, id, lane.known.digest)
            case Withdrawn(reason, _) => Explained(lane.log, id, lane.known.digest, reason))
  }

  ghost predicate OriginInv(lane: Lane) {
    && (lane.journal.Some? && lane.journal.value.result.Some? ==>
          Origin(lane.log, lane.journal.value.command.id, lane.journal.value.result.value))
    && (forall id :: id in lane.server && lane.server[id].Acknowledged? ==>
          Settled(lane, id) || Origin(lane.log, id, lane.server[id].result))
    && (forall id, result, heard :: Sent(id, ResultReceipt(result), heard) in lane.log ==> Origin(lane.log, id, result))
  }

  predicate Timely(event: Event, command: Command) {
    event.ImageSettled? && event.id == command.id && event.judgement.Withdrawn? && event.judgement.reason.ExpiredFirst? ==>
      event.began.Some? && event.began.value >= command.expiresAt
  }

  /** No image of the journaled command was given up as expired on an attempt begun before its expiry. */
  ghost predicate ExpiryInv(lane: Lane) {
    lane.journal.Some? ==>
      forall event :: event in lane.log ==> Timely(event, lane.journal.value.command)
  }

  /** What counts as delivered was stored, and the result still carries it. */
  ghost predicate DeliveredInv(lane: Lane) {
    lane.journal.Some? && lane.journal.value.result.Some? ==>
      var entry := lane.journal.value;
      forall d :: d in DeliveredOf(entry) ==>
        && StoredBefore(lane.log, entry.command.id, d)
        && (d in References(entry.result.value) || entry.result.value == ResultRefused(false))
  }

  ghost predicate ReportInv(lane: Lane) {
    HeardInv(lane) && OriginInv(lane) && ExpiryInv(lane) && DeliveredInv(lane)
  }

  lemma LogGrows(lane: Lane, step: Step)
    requires Enabled(lane, step)
    ensures lane.log <= After(lane, step).log
    ensures EventOf(lane, step).Some? ==> EventOf(lane, step).value in After(lane, step).log
    ensures forall event :: event in After(lane, step).log ==> event in lane.log || EventOf(lane, step) == Some(event)
  {
  }

  lemma {:induction false} NeverSettled(log: seq<Event>, id: CommandId, digest: Digest)
    requires Settlements(log, id, digest) == 0
    ensures forall event :: event in log ==> !Settles(event, id, digest)
  {
    if log != [] {
      NeverSettled(log[..|log| - 1], id, digest);
      assert log == log[..|log| - 1] + [log[|log| - 1]];
    }
  }

  lemma HeardKept(lane: Lane, step: Step)
    requires Inv(lane) && HeardInv(lane) && Enabled(lane, step)
    ensures HeardInv(After(lane, step))
  {
    LogGrows(lane, step);
  }

  lemma ExpiryKept(lane: Lane, step: Step)
    requires Inv(lane) && ExpiryInv(lane) && Enabled(lane, step)
    ensures ExpiryInv(After(lane, step))
  {
    LogGrows(lane, step);
    if step.Write? && lane.journal.None? {
      var command := step.entry.command;
      forall event | event in lane.log ensures Timely(event, command) {
        if event.ImageSettled? && event.id == command.id {
          assert UploadInv(lane, command.id, event.digest);
          NeverSettled(lane.log, command.id, event.digest);
        }
      }
    }
  }

  lemma DeliveredKept(lane: Lane, step: Step)
    requires Inv(lane) && HeardInv(lane) && DeliveredInv(lane) && Enabled(lane, step)
    ensures DeliveredInv(After(lane, step))
  {
    LogGrows(lane, step);
    if step.Write? && lane.known.Judged? && lane.known.judgement.Withdrawn? {
      var judgement := lane.known.judgement;
      WithdrawReferences(lane.journal.value.result.value, lane.known.digest, judgement.reason, judgement.bytes);
    }
  }

  /** What `NextEntry` journals has its cause in the log. */
  lemma WrittenHasOrigin(lane: Lane, entry: Entry)
    requires Inv(lane) && HeardInv(lane) && OriginInv(lane) && NextEntry(lane) == Some(entry) && entry.result.Some?
    ensures Origin(lane.log, entry.command.id, entry.result.value)
  {
    var id, known := entry.command.id, lane.known;
    if known.Returned? {
      assert Derived(lane.log, id, known.outcome, known.outcome);
    } else if known.Judged? && known.judgement.Withdrawn? {
      var result := lane.journal.value.result.value;
      if result.Document? {
        var returned :| Answer(id, returned) in lane.log && Derived(lane.log, id, returned, result);
        WithdrawDerives(lane.log, id, returned, result, known.digest, known.judgement.reason, known.judgement.bytes);
      }
    }
  }

  lemma OriginKept(lane: Lane, step: Step)
    requires Inv(lane) && HeardInv(lane) && OriginInv(lane) && Enabled(lane, step)
    ensures OriginInv(After(lane, step))
  {
    var later := After(lane, step);
    LogGrows(lane, step);
    if later.journal.Some? && later.journal.value.result.Some? {
      if step.Write? {
        WrittenHasOrigin(lane, step.entry);
      }
      OriginGrows(lane.log, later.log, later.journal.value.command.id, later.journal.value.result.value);
    }
    forall id | id in later.server && later.server[id].Acknowledged?
      ensures Settled(later, id) || Origin(later.log, id, later.server[id].result)
    {
      RecordedHasOrigin(lane, step, id);
    }
    forall id, result, heard | Sent(id, ResultReceipt(result), heard) in later.log ensures Origin(later.log, id, result) {
      SentHasOrigin(lane, step, id, result, heard);
    }
  }

  lemma SentHasOrigin(lane: Lane, step: Step, id: CommandId, result: Outcome, heard: Option<Verdict>)
    requires OriginInv(lane) && Enabled(lane, step) && Sent(id, ResultReceipt(result), heard) in After(lane, step).log
    ensures Origin(After(lane, step).log, id, result)
  {
    LogGrows(lane, step);
    if Sent(id, ResultReceipt(result), heard) !in lane.log {
      assert lane.journal.Some? && id == lane.journal.value.command.id && lane.journal.value.result == Some(result);
    }
    OriginGrows(lane.log, After(lane, step).log, id, result);
  }

  lemma RecordedHasOrigin(lane: Lane, step: Step, id: CommandId)
    requires OriginInv(lane) && Enabled(lane, step)
    requires id in After(lane, step).server && After(lane, step).server[id].Acknowledged?
    ensures Settled(After(lane, step), id) || Origin(After(lane, step).log, id, After(lane, step).server[id].result)
  {
    var later := After(lane, step);
    LogGrows(lane, step);
    if !Settled(later, id) {
      assert !Settled(lane, id);
      assert Origin(lane.log, id, later.server[id].result);
      OriginGrows(lane.log, later.log, id, later.server[id].result);
    }
  }

  lemma {:induction false} RunReports(steps: seq<Step>)
    requires Run(START, steps).Some?
    ensures Inv(Run(START, steps).value) && ReportInv(Run(START, steps).value)
    decreases |steps|
  {
    RunKeeps(steps);
    if steps != [] {
      var front, last := steps[..|steps| - 1], steps[|steps| - 1];
      RunReports(front);
      var lane := Run(START, front).value;
      HeardKept(lane, last);
      OriginKept(lane, last);
      ExpiryKept(lane, last);
      DeliveredKept(lane, last);
    }
  }

  lemma ReachableReports(lane: Lane)
    requires Reachable(lane)
    ensures Inv(lane) && ReportInv(lane)
  {
    var steps :| Run(START, steps) == Some(lane);
    RunReports(steps);
  }

  // ------------------------------------------------------------------- what it means

  /** Everything journaled, sent or recorded is the answer, or has another cause that the history shows. */
  lemma ResultsHaveOrigins(lane: Lane, id: CommandId)
    requires Reachable(lane)
    ensures Journaled(lane, id) && lane.journal.value.result.Some? ==> Origin(lane.log, id, lane.journal.value.result.value)
    ensures id in lane.server && lane.server[id].Acknowledged? && !Settled(lane, id) ==>
              Origin(lane.log, id, lane.server[id].result)
    ensures forall result, heard :: Sent(id, ResultReceipt(result), heard) in lane.log ==> Origin(lane.log, id, result)
  {
    ReachableReports(lane);
  }

  /** The answer was journaled, and whatever is journaled or recorded since stands for it. */
  ghost predicate AnswerHeld(lane: Lane, id: CommandId, returned: Outcome) {
    && Answer(id, returned) in lane.log && !Settled(lane, id) && !HandedOut(lane, id)
    && id in lane.server && !lane.server[id].Leased?
    && (Journaled(lane, id) ==>
          && lane.journal.value.phase.ResultPending? && lane.journal.value.result.Some?
          && Reports(lane.log, id, returned, lane.journal.value.result.value))
    && (lane.server[id].Acknowledged? ==> Reports(lane.log, id, returned, lane.server[id].result))
  }

  lemma WrittenReports(lane: Lane, entry: Entry, returned: Outcome)
    requires Inv(lane) && HeardInv(lane) && lane.journal.Some? && NextEntry(lane) == Some(entry)
    requires AnswerHeld(lane, lane.journal.value.command.id, returned)
    ensures entry.result.Some? && entry.phase.ResultPending?
    ensures Reports(lane.log, lane.journal.value.command.id, returned, entry.result.value)
  {
    var id, known, result := lane.journal.value.command.id, lane.known, lane.journal.value.result.value;
    if known.Judged? && known.judgement.Withdrawn? && Derived(lane.log, id, returned, result) {
      WithdrawDerives(lane.log, id, returned, result, known.digest, known.judgement.reason, known.judgement.bytes);
    }
  }

  lemma AnswerHeldKept(lane: Lane, step: Step, id: CommandId, returned: Outcome)
    requires Inv(lane) && HeardInv(lane) && Enabled(lane, step) && AnswerHeld(lane, id, returned)
    ensures AnswerHeld(After(lane, step), id, returned)
  {
    var later := After(lane, step);
    LogGrows(lane, step);
    if Journaled(lane, id) && step.Write? {
      WrittenReports(lane, step.entry, returned);
    }
    if Journaled(later, id) {
      ReportsGrow(lane.log, later.log, id, returned, later.journal.value.result.value);
    }
    HeldAtServer(lane, step, id, returned);
  }

  lemma HeldAtServer(lane: Lane, step: Step, id: CommandId, returned: Outcome)
    requires Enabled(lane, step) && AnswerHeld(lane, id, returned)
    ensures var later := After(lane, step);
            && id in later.server && !later.server[id].Leased?
            && (later.server[id].Acknowledged? ==> Reports(later.log, id, returned, later.server[id].result))
  {
    var later := After(lane, step);
    LogGrows(lane, step);
    if later.server[id].Acknowledged? {
      assert Reports(lane.log, id, returned, later.server[id].result);
      ReportsGrow(lane.log, later.log, id, returned, later.server[id].result);
    }
  }

  /** An answer that is journaled is held from then on. */
  lemma JournaledIsHeld(lane: Lane, id: CommandId, returned: Outcome)
    requires Inv(lane) && LaneSafety.Reporting(lane, id) && lane.journal.value.result == Some(returned)
    requires Answer(id, returned) in lane.log
    ensures AnswerHeld(lane, id, returned)
  {
    AnswerCounted(lane.log, id, returned);
    assert LogInv(lane, id);
    assert Derived(lane.log, id, returned, returned);
  }

  /**
   * Once what an execution returned was journaled, every result journaled for the command or recorded by
   * the server, over any run from there, is that answer minus images withdrawn for the reason given, or
   * the replacement after the server was heard to refuse the result; never the unknown outcome.
   */
  lemma {:induction false} AnswerIsReported(steps: seq<Step>, n: nat, id: CommandId, returned: Outcome)
    requires n <= |steps| && Run(START, steps).Some?
    requires Run(START, steps[..n]).Some?
    requires var lane := Run(START, steps[..n]).value;
             LaneSafety.Reporting(lane, id) && lane.journal.value.result == Some(returned) && Answer(id, returned) in lane.log
    ensures AnswerHeld(Run(START, steps).value, id, returned)
    decreases |steps|
  {
    if n == |steps| {
      assert steps[..n] == steps;
      RunKeeps(steps);
      JournaledIsHeld(Run(START, steps).value, id, returned);
    } else {
      var front := steps[..|steps| - 1];
      assert front[..n] == steps[..n];
      AnswerIsReported(front, n, id, returned);
      RunReports(front);
      AnswerHeldKept(Run(START, front).value, steps[|steps| - 1], id, returned);
    }
  }

  /** The unknown outcome is reported only after a fence, an abandoned execution, or if `execute` returned it. */
  lemma UnknownHasCause(lane: Lane, id: CommandId)
    requires Reachable(lane) && Journaled(lane, id) && lane.journal.value.result == Some(UnknownOutcome)
    ensures GaveUp(lane.log, id) || Answer(id, UnknownOutcome) in lane.log
  {
    ReachableReports(lane);
  }

  /** A journaled image marked as expired was given up on an attempt begun at or after the command's expiry. */
  lemma ExpiredOnlyAfterExpiry(lane: Lane, id: CommandId, returned: Outcome, i: nat)
    requires Reachable(lane) && Journaled(lane, id) && Answer(id, returned) in lane.log && returned.Document?
    requires lane.journal.value.result.Some? && lane.journal.value.result.value.Document?
    requires i < |returned.items| && i < |lane.journal.value.result.value.items|
    requires lane.journal.value.result.value.items[i] == Unavailable(ExpiredFirst) != returned.items[i]
    ensures exists event :: event in lane.log && event.ImageSettled? && event.id == id
              && (returned.items[i].Image? || returned.items[i].Marker?) && event.digest == returned.items[i].digest
              && event.began.Some? && event.began.value >= lane.journal.value.command.expiresAt
  {
    ReachableReports(lane);
    var result := lane.journal.value.result.value;
    var other :| Answer(id, other) in lane.log && Derived(lane.log, id, other, result);
    AnswerCounted(lane.log, id, returned);
    assert LogInv(lane, id);
    var bytes, began :| ImageSettled(id, returned.items[i].digest, Withdrawn(ExpiredFirst, bytes), began) in lane.log;
    assert Timely(ImageSettled(id, returned.items[i].digest, Withdrawn(ExpiredFirst, bytes), began), lane.journal.value.command);
  }

  /** A stored image stays: it is in the journaled result, unless the server refused that whole. */
  lemma StoredStaysReferenced(lane: Lane, digest: Digest)
    requires Reachable(lane) && lane.journal.Some? && lane.journal.value.result.Some?
    requires digest in DeliveredOf(lane.journal.value)
    ensures StoredBefore(lane.log, lane.journal.value.command.id, digest)
    ensures digest in References(lane.journal.value.result.value) || lane.journal.value.result.value == ResultRefused(false)
  {
    ReachableReports(lane);
  }
}
