/** What every reachable state of the command lane keeps. */
module LaneSafety {
  import opened Options
  import opened Outcomes
  import opened CommandLane
  import opened LaneHistory

  ghost predicate Journaled(lane: Lane, id: CommandId) {
    lane.journal.Some? && lane.journal.value.command.id == id
  }

  /** The command's result was journaled, so its images may have been sent. */
  ghost predicate Reporting(lane: Lane, id: CommandId) {
    Journaled(lane, id) && lane.journal.value.phase.ResultPending?
  }

  /** The server answered the command by itself, as one that would never be delivered. */
  ghost predicate Settled(lane: Lane, id: CommandId) {
    SettledByServer(id) in lane.log
  }

  /** The journaled phase and the server's state of the same command never drift apart. */
  ghost predicate PhaseInv(lane: Lane) {
    lane.journal.Some? ==>
      var entry := lane.journal.value;
      && entry.command.id in lane.server
      && var state := lane.server[entry.command.id];
      match entry.phase
      case AcceptedPending =>
        && entry.result.None? && entry.delivered.None?
        && (state in {Leased, Accepted, Unknown} || (state.Acknowledged? && Settled(lane, entry.command.id)))
      case StartedPending => entry.result.None? && entry.delivered.None? && state in {Accepted, Started, Unknown}
      case Executing => entry.result.None? && entry.delivered.None? && state in {Started, Unknown}
      case ResultPending =>
        && entry.result.Some?
        && (state.Acknowledged? && !Settled(lane, entry.command.id) ==>
              ReadyToReport(entry) && state.result == entry.result.value)
        && (Settled(lane, entry.command.id) ==> state.Acknowledged? && entry == Terminal(entry))
        && (state.Acknowledged? || state in {Started, Unknown})
  }

  ghost predicate KnownInv(lane: Lane) {
    match lane.known
    case Idle => true
    case Holding => lane.journal.Some?
    case Polled(command) =>
      && lane.journal.None? && command.id in lane.server
      && (lane.server[command.id] in {Leased, Unknown} || (lane.server[command.id].Acknowledged? && Settled(lane, command.id)))
    case Cleared(id) => lane.journal.None? && id in lane.server && lane.server[id].Acknowledged?
    case Armed => lane.journal.Some? && lane.journal.value.phase.Executing?
    case Running => lane.journal.Some? && lane.journal.value.phase.Executing?
    case Returned(outcome) =>
      && lane.journal.Some? && lane.journal.value.phase.Executing?
      && Answer(lane.journal.value.command.id, outcome) in lane.log
    case Judged(digest, judgement) =>
      && lane.journal.Some? && Undelivered(lane.journal.value, digest)
      && (judgement.Delivered? ==> (lane.journal.value.command.id, digest) in lane.kept)
    case Answered(receipt, verdict) =>
      && lane.journal.Some? && NextReceipt(lane.journal.value) == Some(receipt)
      && lane.journal.value.command.id in lane.server
      && var state, progress := lane.server[lane.journal.value.command.id],
                                ProgressOf(lane.log, lane.journal.value.command.id);
      match (receipt, verdict)
      case (AcceptedReceipt, Recorded) => state in {Accepted, Unknown} && progress.Accepting?
      case (StartedReceipt, Recorded) => state in {Started, Unknown} && progress.Starting?
      case (AcceptedReceipt, Replay) => (state.Unknown? || state.Acknowledged?) && progress.AcceptFenced?
      case (StartedReceipt, Replay) => state.Unknown? && progress.StartFenced?
      case (ResultReceipt(result), Recorded) => state == Acknowledged(result)
      case (ResultReceipt(result), Replay) =>
        state.Acknowledged? && state.result != result && Settled(lane, lane.journal.value.command.id)
      case (ResultReceipt(result), Invalid) => !Acceptable(result) && !state.Acknowledged?
      case (_, _) => false
  }

  /** What the log may say about a command, by where the command stands. */
  ghost predicate LogInv(lane: Lane, id: CommandId) {
    var calls, answers, progress := Calls(lane.log, id), Answers(lane.log, id), ProgressOf(lane.log, id);
    && answers <= calls <= 1
    && (Journaled(lane, id) ==> id in lane.server)
    && (Journaled(lane, id) ==>
          match lane.journal.value.phase
          case AcceptedPending =>
            && calls == 0
            && (progress in {Unsent, Accepting}
                || (progress.AcceptFenced? && (lane.server[id].Unknown? || Settled(lane, id))))
            && (progress.Unsent? ==> lane.server[id] in {Leased, Unknown} || Settled(lane, id))
          case StartedPending =>
            && calls == 0
            && (progress in {Accepting, Starting} || (progress.StartFenced? && lane.server[id].Unknown?))
          case Executing =>
            && progress.Starting?
            && (lane.known.Armed? ==> calls == 0)
            && (lane.known.Running? ==> calls == 1 && answers == 0)
          case ResultPending => progress in {AcceptFenced, Starting, StartFenced, LaneHistory.Reporting})
    && (!Journaled(lane, id) && (id !in lane.server || !lane.server[id].Acknowledged?) ==>
          && calls == 0 && progress.Unsent?
          && (id in lane.server ==> lane.server[id] in {Leased, Unknown}))
    && (Settled(lane, id) ==>
          && id in lane.server && lane.server[id].Acknowledged?
          && calls == 0 && !progress.Starting? && !progress.StartFenced?
          && (Journaled(lane, id) ==> lane.journal.value.phase.AcceptedPending? || lane.journal.value.phase.ResultPending?)
          && (lane.known.Polled? && lane.known.command.id == id ==> progress.Unsent?))
    && (!progress.Disordered?)
  }

  /** Every result the journal holds, a receipt carried or the server recorded is honest. */
  ghost predicate ResultInv(lane: Lane) {
    && (lane.journal.Some? && lane.journal.value.result.Some? ==>
          Honest(lane.log, lane.journal.value.command.id, lane.journal.value.result.value))
    && (forall i :: 0 <= i < |lane.log| && lane.log[i].Sent? && lane.log[i].receipt.ResultReceipt? ==>
          Honest(lane.log, lane.log[i].id, lane.log[i].receipt.result))
    && (forall id :: id in lane.server && lane.server[id].Acknowledged? ==>
          || SettledByServer(id) in lane.log
          || (Honest(lane.log, id, lane.server[id].result) && Acceptable(lane.server[id].result)))
  }

  /** The server holds every image it was said to hold. */
  ghost predicate ImageInv(lane: Lane) {
    && (lane.journal.Some? ==>
          forall d :: d in DeliveredOf(lane.journal.value) ==> (lane.journal.value.command.id, d) in lane.kept)
    && (forall id :: id in lane.server && lane.server[id].Acknowledged? ==>
          || SettledByServer(id) in lane.log
          || forall d :: d in References(lane.server[id].result) ==> (id, d) in lane.kept)
  }

  /** The bytes of every undelivered image are still beside the journal. */
  ghost predicate SidecarInv(lane: Lane) {
    && (lane.journal.Some? ==>
          var id := lane.journal.value.command.id;
          forall d: nat :: Undelivered(lane.journal.value, d) ==> Written(lane, id, d))
    && (lane.journal.Some? && lane.known.Returned? ==>
          var id := lane.journal.value.command.id;
          forall d :: d in References(lane.known.outcome) ==> Written(lane, id, d))
    && (lane.known.Cleared? ==> lane.journal.None?)
  }

  /** An image is settled once, plus once for every settlement that was forgotten. */
  ghost predicate UploadInv(lane: Lane, id: CommandId, digest: Digest) {
    var settled, lost := Settlements(lane.log, id, digest), Losses(lane.log, id, digest);
    if Settled(lane, id) then settled == lost == 0
    else if Reporting(lane, id) then
      if Undelivered(lane.journal.value, digest)
      then settled == lost + if lane.known.Judged? && lane.known.digest == digest then 1 else 0
      else settled <= lost + 1
    else if !Journaled(lane, id) && id in lane.server && lane.server[id].Acknowledged? then settled <= lost + 1
    else settled == lost == 0
  }

  ghost predicate Inv(lane: Lane) {
    && PhaseInv(lane)
    && KnownInv(lane)
    && (forall id :: LogInv(lane, id))
    && ResultInv(lane)
    && ImageInv(lane)
    && SidecarInv(lane)
    && (forall id, d :: UploadInv(lane, id, d))
  }

  lemma StartInv()
    ensures Inv(START)
  {
  }

  // ------------------------------------------------------------------- one step

  /** How one step extends the log. */
  lemma Pushed(lane: Lane, step: Step)
    requires Enabled(lane, step)
    ensures EventOf(lane, step).Some? ==>
              After(lane, step).log == lane.log + [EventOf(lane, step).value]
    ensures forall id :: Calls(After(lane, step).log, id)
                         == Calls(lane.log, id) + if EventOf(lane, step) == Some(Called(id)) then 1 else 0
    ensures forall id :: Answers(After(lane, step).log, id)
                         == Answers(lane.log, id) + if step.Return? && Journaled(lane, id) then 1 else 0
    ensures forall id :: ProgressOf(After(lane, step).log, id)
                         == if step.Send? && Journaled(lane, id)
                            then Advance(ProgressOf(lane.log, id), NextReceipt(lane.journal.value).value,
                                         step.heard && VerdictOf(lane).Replay?)
                            else ProgressOf(lane.log, id)
    ensures forall id, d :: Settlements(After(lane, step).log, id, d)
                            == Settlements(lane.log, id, d)
                               + if EventOf(lane, step).Some? && Settles(EventOf(lane, step).value, id, d) then 1 else 0
    ensures forall id, d :: Losses(After(lane, step).log, id, d)
                            == Losses(lane.log, id, d) + if EventOf(lane, step) == Some(SettlementLost(id, d)) then 1 else 0
  {
    if EventOf(lane, step).Some? {
      Logged(lane.log, EventOf(lane, step).value);
    }
  }

  lemma PhaseKeptBySend(lane: Lane, step: Step)
    requires PhaseInv(lane) && KnownInv(lane) && Enabled(lane, step) && step.Send?
    ensures PhaseInv(After(lane, step))
  {
  }

  lemma PhaseKeptByWrite(lane: Lane, step: Step)
    requires PhaseInv(lane) && KnownInv(lane) && Enabled(lane, step) && step.Write?
    requires forall id :: LogInv(lane, id)
    ensures PhaseInv(After(lane, step))
  {
    assert LogInv(lane, step.entry.command.id);
  }

  lemma PhaseKeptByRest(lane: Lane, step: Step)
    requires PhaseInv(lane) && KnownInv(lane) && Enabled(lane, step) && !step.Send? && !step.Write?
    ensures PhaseInv(After(lane, step))
  {
  }

  lemma KnownKeptBySend(lane: Lane, step: Step)
    requires Inv(lane) && Enabled(lane, step) && step.Send?
    ensures KnownInv(After(lane, step))
  {
    Pushed(lane, step);
    assert LogInv(lane, lane.journal.value.command.id);
  }

  lemma KnownKeptByRest(lane: Lane, step: Step)
    requires PhaseInv(lane) && KnownInv(lane) && Enabled(lane, step) && !step.Send?
    ensures KnownInv(After(lane, step))
  {
    if lane.known.Answered? {
      Pushed(lane, step);
    }
  }

  lemma LogKeptBySend(lane: Lane, step: Step, id: CommandId)
    requires PhaseInv(lane) && KnownInv(lane) && LogInv(lane, id) && Enabled(lane, step) && step.Send?
    ensures LogInv(After(lane, step), id)
  {
    Pushed(lane, step);
  }

  lemma LogKeptByWrite(lane: Lane, step: Step, id: CommandId)
    requires PhaseInv(lane) && KnownInv(lane) && LogInv(lane, id) && Enabled(lane, step) && step.Write?
    ensures LogInv(After(lane, step), id)
  {
    assert After(lane, step).log == lane.log;
  }

  lemma LogKeptByServer(lane: Lane, step: Step, id: CommandId)
    requires PhaseInv(lane) && KnownInv(lane) && LogInv(lane, id) && Enabled(lane, step) && (step.Lease? || step.TimeOut?)
    ensures LogInv(After(lane, step), id)
  {
    assert After(lane, step).log == lane.log;
  }

  lemma LogKeptBySettling(lane: Lane, step: Step, id: CommandId)
    requires PhaseInv(lane) && KnownInv(lane) && LogInv(lane, id) && Enabled(lane, step) && step.SettleUndelivered?
    ensures LogInv(After(lane, step), id)
  {
    Pushed(lane, step);
  }

  ghost predicate Runs(step: Step) {
    step.Execute? || step.Return? || step.Clear? || step.Poll? || step.Load?
  }

  lemma LogKeptByRunning(lane: Lane, step: Step, id: CommandId)
    requires PhaseInv(lane) && KnownInv(lane) && LogInv(lane, id) && Enabled(lane, step) && Runs(step)
    ensures LogInv(After(lane, step), id)
  {
    Pushed(lane, step);
  }

  lemma LogKeptByRest(lane: Lane, step: Step, id: CommandId)
    requires PhaseInv(lane) && KnownInv(lane) && LogInv(lane, id) && Enabled(lane, step) && !Runs(step)
    requires !step.Send? && !step.Write? && !step.Lease? && !step.TimeOut? && !step.SettleUndelivered?
    ensures LogInv(After(lane, step), id)
  {
    Pushed(lane, step);
  }

  lemma ResultKeptByReceipt(lane: Lane, step: Step)
    requires Inv(lane) && Enabled(lane, step) && (step.Send? || step.Write?)
    ensures ResultInv(After(lane, step))
  {
    if step.Write? && lane.known.Judged? && lane.known.judgement.Withdrawn? {
      WithdrawalStaysHonest(lane, lane.known.digest, lane.known.judgement);
    }
  }

  lemma WithdrawalStaysHonest(lane: Lane, digest: Digest, judgement: Judgement)
    requires ResultInv(lane) && judgement.Withdrawn?
    requires lane.journal.Some? && lane.journal.value.result.Some?
    ensures Honest(lane.log, lane.journal.value.command.id,
                   Withdraw(lane.journal.value.result.value, digest, judgement.reason, judgement.bytes))
  {
    var id, result := lane.journal.value.command.id, lane.journal.value.result.value;
    if result.Document? {
      var returned :| Answer(id, returned) in lane.log && Trimmed(returned, result);
      WithdrawTrims(returned, result, digest, judgement.reason, judgement.bytes);
    }
  }

  lemma ResultKeptByRest(lane: Lane, step: Step)
    requires PhaseInv(lane) && KnownInv(lane) && ResultInv(lane) && Enabled(lane, step) && !step.Send? && !step.Write?
    ensures ResultInv(After(lane, step))
  {
  }

  lemma ImageKeptByReceipt(lane: Lane, step: Step)
    requires PhaseInv(lane) && KnownInv(lane) && ImageInv(lane) && Enabled(lane, step) && (step.Send? || step.Write?)
    ensures ImageInv(After(lane, step))
  {
  }

  lemma ImageKeptByRest(lane: Lane, step: Step)
    requires ImageInv(lane) && Enabled(lane, step) && !step.Send? && !step.Write?
    ensures ImageInv(After(lane, step))
  {
  }

  lemma SidecarKept(lane: Lane, step: Step)
    requires Inv(lane) && Enabled(lane, step)
    ensures SidecarInv(After(lane, step))
  {
    WithdrawalShrinks(lane, step);
  }

  /** Withdrawing an image from the journaled result leaves no other image undelivered. */
  lemma WithdrawalShrinks(lane: Lane, step: Step)
    requires Inv(lane) && Enabled(lane, step)
    ensures step.Write? && lane.known.Judged? ==>
              forall d: nat :: Undelivered(step.entry, d) <==>
                               Undelivered(lane.journal.value, d) && d != lane.known.digest
  {
    if step.Write? && lane.known.Judged? && lane.known.judgement.Withdrawn? {
      var judgement := lane.known.judgement;
      WithdrawReferences(lane.journal.value.result.value, lane.known.digest, judgement.reason, judgement.bytes);
    }
  }

  lemma UploadKeptByWrite(lane: Lane, step: Step, id: CommandId, digest: Digest)
    requires Inv(lane) && Enabled(lane, step) && step.Write?
    ensures UploadInv(After(lane, step), id, digest)
  {
    assert After(lane, step).log == lane.log;
    assert UploadInv(lane, id, digest);
    WithdrawalShrinks(lane, step);
  }

  ghost predicate SettlesImages(step: Step) {
    step.Upload? || step.Silence? || step.Missing? || step.Forget?
  }

  lemma UploadKeptByDelivery(lane: Lane, step: Step, id: CommandId, digest: Digest)
    requires PhaseInv(lane) && KnownInv(lane) && UploadInv(lane, id, digest) && Enabled(lane, step) && SettlesImages(step)
    ensures UploadInv(After(lane, step), id, digest)
  {
    Pushed(lane, step);
    assert Settled(After(lane, step), id) <==> Settled(lane, id);
    if Journaled(lane, id) && lane.journal.value.phase.ResultPending? && Settled(lane, id) {
      assert !Undelivered(lane.journal.value, digest);
    }
  }

  lemma UploadKeptByServer(lane: Lane, step: Step, id: CommandId, digest: Digest)
    requires PhaseInv(lane) && KnownInv(lane) && LogInv(lane, id) && UploadInv(lane, id, digest)
    requires Enabled(lane, step) && (step.Lease? || step.TimeOut? || step.SettleUndelivered?)
    ensures UploadInv(After(lane, step), id, digest)
  {
    Pushed(lane, step);
  }

  lemma UploadKeptByRest(lane: Lane, step: Step, id: CommandId, digest: Digest)
    requires PhaseInv(lane) && KnownInv(lane) && LogInv(lane, id) && UploadInv(lane, id, digest)
    requires Enabled(lane, step) && !step.Write? && !SettlesImages(step)
    requires !step.Lease? && !step.TimeOut? && !step.SettleUndelivered?
    ensures UploadInv(After(lane, step), id, digest)
  {
    Pushed(lane, step);
    assert Settled(After(lane, step), id) <==> Settled(lane, id);
  }

  lemma LogKept(lane: Lane, step: Step, id: CommandId)
    requires Inv(lane) && Enabled(lane, step)
    ensures LogInv(After(lane, step), id)
  {
    assert LogInv(lane, id);
    if step.Send? {
      LogKeptBySend(lane, step, id);
    } else if step.Write? {
      LogKeptByWrite(lane, step, id);
    } else if step.Lease? || step.TimeOut? {
      LogKeptByServer(lane, step, id);
    } else if step.SettleUndelivered? {
      LogKeptBySettling(lane, step, id);
    } else if Runs(step) {
      LogKeptByRunning(lane, step, id);
    } else {
      LogKeptByRest(lane, step, id);
    }
  }

  lemma UploadKept(lane: Lane, step: Step, id: CommandId, digest: Digest)
    requires Inv(lane) && Enabled(lane, step)
    ensures UploadInv(After(lane, step), id, digest)
  {
    assert UploadInv(lane, id, digest) && LogInv(lane, id);
    if step.Write? {
      UploadKeptByWrite(lane, step, id, digest);
    } else if SettlesImages(step) {
      UploadKeptByDelivery(lane, step, id, digest);
    } else if step.Lease? || step.TimeOut? || step.SettleUndelivered? {
      UploadKeptByServer(lane, step, id, digest);
    } else {
      UploadKeptByRest(lane, step, id, digest);
    }
  }

  /** Every step keeps the invariant. */
  lemma InvKept(lane: Lane, step: Step)
    requires Inv(lane) && Enabled(lane, step)
    ensures Inv(After(lane, step))
  {
    if step.Send? {
      PhaseKeptBySend(lane, step);
      KnownKeptBySend(lane, step);
    } else {
      if step.Write? {
        PhaseKeptByWrite(lane, step);
      } else {
        PhaseKeptByRest(lane, step);
      }
      KnownKeptByRest(lane, step);
    }
    if step.Send? || step.Write? {
      ResultKeptByReceipt(lane, step);
    } else {
      ResultKeptByRest(lane, step);
    }
    if step.Send? || step.Write? {
      ImageKeptByReceipt(lane, step);
    } else {
      ImageKeptByRest(lane, step);
    }
    SidecarKept(lane, step);
    forall id ensures LogInv(After(lane, step), id) {
      LogKept(lane, step, id);
    }
    forall id, d ensures UploadInv(After(lane, step), id, d) {
      UploadKept(lane, step, id, d);
    }
  }

  lemma {:induction false} RunKeeps(steps: seq<Step>)
    requires Run(START, steps).Some?
    ensures Inv(Run(START, steps).value)
    decreases |steps|
  {
    if steps == [] {
      StartInv();
    } else {
      var front := steps[..|steps| - 1];
      RunKeeps(front);
      InvKept(Run(START, front).value, steps[|steps| - 1]);
    }
  }

  /** Every reachable state satisfies the invariant. */
  lemma ReachableKeeps(lane: Lane)
    requires Reachable(lane)
    ensures Inv(lane)
  {
    var steps :| Run(START, steps) == Some(lane);
    RunKeeps(steps);
  }
}
