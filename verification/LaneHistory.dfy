/** What a lane's log says about one command. */
module LaneHistory {
  import opened Options
  import opened Outcomes
  import opened CommandLane

  function Calls(log: seq<Event>, id: CommandId): nat {
    if log == [] then 0
    else Calls(log[..|log| - 1], id) + if log[|log| - 1] == Called(id) then 1 else 0
  }

  function Answers(log: seq<Event>, id: CommandId): nat {
    if log == [] then 0
    else Answers(log[..|log| - 1], id)
         + if log[|log| - 1].Answer? && log[|log| - 1].id == id then 1 else 0
  }

  predicate Settles(event: Event, id: CommandId, digest: Digest) {
    event.ImageSettled? && event.id == id && event.digest == digest
  }

  /** How often image `digest` was answered for, refused or given up. */
  function Settlements(log: seq<Event>, id: CommandId, digest: Digest): nat {
    if log == [] then 0
    else Settlements(log[..|log| - 1], id, digest)
         + if Settles(log[|log| - 1], id, digest) then 1 else 0
  }

  /** How often such an answer was forgotten before it reached the journal. */
  function Losses(log: seq<Event>, id: CommandId, digest: Digest): nat {
    if log == [] then 0
    else Losses(log[..|log| - 1], id, digest)
         + if log[|log| - 1] == SettlementLost(id, digest) then 1 else 0
  }

  /** The receipts sent for one command so far, read left to right by `Advance`. */
  datatype Progress = Unsent | Accepting | AcceptFenced | Starting | StartFenced | Reporting | Disordered

  /** accepted+ started+ result+, cut short to result+ only by a replay fence. */
  function Advance(progress: Progress, receipt: Receipt, fenced: bool): Progress {
    match (progress, receipt)
    case (Unsent, AcceptedReceipt) => if fenced then AcceptFenced else Accepting
    case (Accepting, AcceptedReceipt) => if fenced then AcceptFenced else Accepting
    case (AcceptFenced, AcceptedReceipt) => AcceptFenced
    case (Accepting, StartedReceipt) => if fenced then StartFenced else Starting
    case (Starting, StartedReceipt) => if fenced then StartFenced else Starting
    case (StartFenced, StartedReceipt) => StartFenced
    case (AcceptFenced, ResultReceipt(_)) => Reporting
    case (Starting, ResultReceipt(_)) => Reporting
    case (StartFenced, ResultReceipt(_)) => Reporting
    case (Reporting, ResultReceipt(_)) => Reporting
    case (_, _) => Disordered
  }

  function ProgressOf(log: seq<Event>, id: CommandId): Progress {
    if log == [] then Unsent
    else
      var before := ProgressOf(log[..|log| - 1], id);
      match log[|log| - 1]
      case Sent(sender, receipt, heard) =>
        if sender == id then Advance(before, receipt, heard == Some(Replay)) else before
      case _ => before
  }

  /**
   * The result is one of recovery's own sentinels, or what `execute` returned minus withdrawn images.
   */
  ghost predicate Honest(log: seq<Event>, id: CommandId, result: Outcome) {
    || result == UnknownOutcome
    || result == ResultRefused(false)
    || exists returned :: Answer(id, returned) in log && Trimmed(returned, result)
  }

  lemma Logged(log: seq<Event>, event: Event)
    ensures forall id :: Calls(log + [event], id) == Calls(log, id) + if event == Called(id) then 1 else 0
    ensures forall id :: Answers(log + [event], id)
                         == Answers(log, id) + if event.Answer? && event.id == id then 1 else 0
    ensures forall id :: ProgressOf(log + [event], id)
                         == if event.Sent? && event.id == id
                            then Advance(ProgressOf(log, id), event.receipt, event.heard == Some(Replay))
                            else ProgressOf(log, id)
    ensures forall id, d :: Settlements(log + [event], id, d)
                            == Settlements(log, id, d) + if Settles(event, id, d) then 1 else 0
    ensures forall id, d :: Losses(log + [event], id, d)
                            == Losses(log, id, d) + if event == SettlementLost(id, d) then 1 else 0
  {
    assert (log + [event])[..|log|] == log;
  }
}
