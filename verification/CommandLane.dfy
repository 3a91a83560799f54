/**
 * One executor's command lane as a machine of atomic steps: the durable journal and sidecar
 * folders, the server's receipts and kept images, and the one fact a running pass has learned since
 * its last durable write (`known`), which a crash or a thrown error forgets.
 *
 * Every `await` boundary lies between two steps, so `Forget` can follow any of them.
 */
module CommandLane {
  import opened Options
  import opened Outcomes

  type CommandId = nat

  datatype Command = Command(id: CommandId, expiresAt: int)

  datatype Phase = AcceptedPending | StartedPending | Executing | ResultPending

  /** The journal file's contents. */
  datatype Entry = Entry(command: Command, phase: Phase, result: Option<Outcome>, delivered: Option<seq<Digest>>)

  /** What `parseRecovery` lets through; anything else makes `load` throw. */
  predicate WellFormed(entry: Entry) {
    && (entry.phase.ResultPending? ==> entry.result.Some? && !entry.result.value.EmptyObject?)
    && (!entry.phase.ResultPending? ==> entry.result.None? && entry.delivered.None?)
  }

  datatype ServerState = Leased | Accepted | Started | Acknowledged(result: Outcome) | Unknown

  datatype Receipt = AcceptedReceipt | StartedReceipt | ResultReceipt(result: Outcome)

  datatype Verdict = Recorded | Replay | Invalid

  datatype Judgement = Delivered | Withdrawn(reason: Reason, bytes: nat)

  /**
   * The volatile half. `Idle`: no pass is running, or the running one has read nothing yet.
   * `Holding`: the pass has the journaled entry in memory. The rest is what it learned since.
   */
  datatype Known =
    | Idle
    | Holding
    | Polled(command: Command)
    | Answered(receipt: Receipt, verdict: Verdict)
    | Armed
    | Running
    | Returned(outcome: Outcome)
    | Judged(digest: Digest, judgement: Judgement)
    | Cleared(id: CommandId)

  /**
   * `Sent` records a receipt that was attempted and the verdict, if one was heard. `FoundExecuting`: a pass
   * found `executing` journaled by an earlier one. `ImageSettled` says how, and when the attempt began.
   */
  datatype Event =
    | Sent(id: CommandId, receipt: Receipt, heard: Option<Verdict>)
    | SettledByServer(id: CommandId)
    | FoundExecuting(id: CommandId)
    | Called(id: CommandId)
    | Answer(id: CommandId, outcome: Outcome)
    | ImageSettled(id: CommandId, digest: Digest, judgement: Judgement, began: Option<int>)
    | SettlementLost(id: CommandId, digest: Digest)
    | Decayed(id: CommandId, digest: Digest)

  datatype Lane = Lane(
    journal: Option<Entry>,
    sidecars: set<(CommandId, Digest)>,
    server: map<CommandId, ServerState>,
    kept: set<(CommandId, Digest)>,
    known: Known,
    log: seq<Event>)

  /**
   * - `Lease`, `TimeOut`, `SettleUndelivered`: the server's own moves. It settles a command that it
   *   finds undeliverable while it answers a poll, and that may be a poll the executor gave up on: the
   *   command may meanwhile have been handed out by a later one.
   * - `Decay`: a sidecar lost or altered outside the executor.
   * - `Forget`: the pass throws or the process dies.
   * - `Load`: a pass reads the journal; an entry that does not parse makes it throw instead.
   * - `Write(entry, survived)`: the journal was replaced; `survived` is false when the pass ended
   *   before it learned so.
   * - `Sweep(kept)`: the start's sweep; `kept` is what could not be removed.
   * - `Send(reached, heard)`: a receipt was sent; it may not reach the server, and its response may
   *   be lost.
   * - `Upload(digest, rejected, began)`: an upload that was answered; `began` is the clock before it.
   * - `Silence(digest, stored, withdrawn, began)`: one nobody heard the answer of. It withdraws the image
   *   only if it began at or after the command's expiry.
   */
  datatype Step =
    | Lease(id: CommandId)
    | TimeOut(id: CommandId)
    | SettleUndelivered(id: CommandId, result: Outcome)
    | Decay(id: CommandId, digest: Digest)
    | Forget
    | Load
    | Poll(command: Command)
    | Write(entry: Entry, survived: bool)
    | Send(reached: bool, heard: bool)
    | Execute
    | KeepSidecar(digest: Digest)
    | Return(outcome: Outcome)
    | Upload(digest: Digest, rejected: Option<Judgement>, began: int)
    | Silence(digest: Digest, stored: bool, withdrawn: Option<Judgement>, began: int)
    | Missing(digest: Digest, bytes: nat)
    | Clear
    | Release(left: set<Digest>)
    | Sweep(kept: set<(CommandId, Digest)>)

  function DeliveredOf(entry: Entry): seq<Digest> {
    if entry.delivered.Some? then entry.delivered.value else []
  }

  function Terminal(entry: Entry): Entry {
    Entry(entry.command, ResultPending, Some(UnknownOutcome), None)
  }

  function RankOf(phase: Phase): nat {
    match phase
    case AcceptedPending => 1
    case StartedPending => 2
    case Executing => 3
    case ResultPending => 4
  }

  function ReceiptRank(receipt: Receipt): nat {
    match receipt
    case AcceptedReceipt => 1
    case StartedReceipt => 2
    case ResultReceipt(_) => 4
  }

  // ------------------------------------------------------------------- the server's side

  /** The server's answer to a receipt (`recordExecutorCommandReceiptInTransaction`). */
  function Judge(state: ServerState, receipt: Receipt, imagesKept: bool): Verdict {
    if receipt.ResultReceipt? && !Acceptable(receipt.result) then Invalid
    else match (state, receipt)
      case (Accepted, AcceptedReceipt) => Recorded
      case (Started, StartedReceipt) => Recorded
      case (Acknowledged(held), ResultReceipt(result)) => if held == result then Recorded else Replay
      case (Leased, AcceptedReceipt) => Recorded
      case (Accepted, StartedReceipt) => Recorded
      case (Started, ResultReceipt(_)) => if imagesKept then Recorded else Invalid
      case (Unknown, ResultReceipt(_)) => if imagesKept then Recorded else Invalid
      case (_, _) => Replay
  }

  function AfterReceipt(state: ServerState, receipt: Receipt, imagesKept: bool): ServerState {
    if Judge(state, receipt, imagesKept) != Recorded then state
    else match receipt
      case AcceptedReceipt => Accepted
      case StartedReceipt => Started
      case ResultReceipt(result) => Acknowledged(result)
  }

  predicate ImagesKept(lane: Lane, id: CommandId, receipt: Receipt) {
    receipt.ResultReceipt? ==> forall d :: d in References(receipt.result) ==> (id, d) in lane.kept
  }

  // ------------------------------------------------------------------- the executor's side

  predicate ReadyToReport(entry: Entry) {
    && entry.phase.ResultPending?
    && entry.result.Some?
    && forall d :: d in References(entry.result.value) ==> d in DeliveredOf(entry)
  }

  /** The receipt the journaled phase sends, if it sends one. */
  function NextReceipt(entry: Entry): Option<Receipt> {
    match entry.phase
    case AcceptedPending => Some(AcceptedReceipt)
    case StartedPending => Some(StartedReceipt)
    case Executing => None
    case ResultPending => if ReadyToReport(entry) then Some(ResultReceipt(entry.result.value)) else None
  }

  /** The image is referenced by the journaled result and not yet answered for. */
  predicate Undelivered(entry: Entry, digest: Digest) {
    && entry.phase.ResultPending?
    && entry.result.Some?
    && digest in References(entry.result.value)
    && digest !in DeliveredOf(entry)
  }

  /** The one entry the pass may journal next, from what it knows; the write-ahead discipline. */
  function NextEntry(lane: Lane): Option<Entry> {
    if lane.journal.None? then
      if lane.known.Polled? then Some(Entry(lane.known.command, AcceptedPending, None, None)) else None
    else
      var entry := lane.journal.value;
      match (entry.phase, lane.known)
      case (AcceptedPending, Answered(AcceptedReceipt, Recorded)) => Some(entry.(phase := StartedPending))
      case (AcceptedPending, Answered(AcceptedReceipt, Replay)) => Some(Terminal(entry))
      case (StartedPending, Answered(StartedReceipt, Recorded)) => Some(entry.(phase := Executing))
      case (StartedPending, Answered(StartedReceipt, Replay)) => Some(Terminal(entry))
      case (Executing, Holding) => Some(Terminal(entry))
      case (Executing, Returned(outcome)) => Some(Entry(entry.command, ResultPending, Some(outcome), None))
      case (ResultPending, Judged(digest, Delivered)) =>
        Some(entry.(delivered := Some(DeliveredOf(entry) + [digest])))
      case (ResultPending, Judged(digest, Withdrawn(reason, bytes))) =>
        if entry.result.None? then None
        else Some(entry.(delivered := Some(DeliveredOf(entry)),
                         result := Some(Withdraw(entry.result.value, digest, reason, bytes))))
      case (ResultPending, Answered(ResultReceipt(result), Invalid)) =>
        if IsRefusedReplacement(result) then None
        else Some(entry.(result := Some(ResultRefused(false))))
      case (_, _) => None
  }

  /** The sidecar was written, whether or not it was lost since. */
  predicate Written(lane: Lane, id: CommandId, digest: Digest) {
    (id, digest) in lane.sidecars || Decayed(id, digest) in lane.log
  }

  /** The sidecar may vanish while the bytes read from it are on their way. */
  predicate CanUpload(lane: Lane, digest: Digest) {
    && lane.known.Holding?
    && lane.journal.Some?
    && Undelivered(lane.journal.value, digest)
    && Written(lane, lane.journal.value.command.id, digest)
  }

  predicate Enabled(lane: Lane, step: Step) {
    match step
    case Lease(id) => id !in lane.server
    case TimeOut(id) => id in lane.server && lane.server[id] in {Leased, Accepted, Started}
    case SettleUndelivered(id, _) => id in lane.server && lane.server[id].Leased?
    case Decay(id, digest) => true
    case Forget => true
    case Load => lane.known.Idle? && lane.journal.Some? && WellFormed(lane.journal.value)
    case Poll(command) =>
      && lane.journal.None? && lane.known.Idle?
      && command.id in lane.server && lane.server[command.id].Leased?
    case Write(entry, _) => NextEntry(lane) == Some(entry)
    case Send(reached, heard) =>
      && lane.known.Holding? && lane.journal.Some?
      && NextReceipt(lane.journal.value).Some?
      && lane.journal.value.command.id in lane.server
      && (heard ==> reached)
    case Execute => lane.known.Armed? && lane.journal.Some? && lane.journal.value.phase.Executing?
    case KeepSidecar(_) => lane.known.Running? && lane.journal.Some?
    // A result references only images whose sidecars were written while it executed.
    case Return(outcome) =>
      && lane.known.Running? && lane.journal.Some?
      && forall d :: d in References(outcome) ==> Written(lane, lane.journal.value.command.id, d)
    case Upload(digest, rejected, _) =>
      && CanUpload(lane, digest)
      && (rejected.Some? ==> rejected.value.Withdrawn? && rejected.value.reason.RefusedByServer?)
    case Silence(digest, _, withdrawn, began) =>
      && CanUpload(lane, digest)
      && (withdrawn.Some? ==>
            withdrawn.value.Withdrawn? && withdrawn.value.reason.ExpiredFirst? && began >= lane.journal.value.command.expiresAt)
    case Missing(digest, _) =>
      && lane.known.Holding? && lane.journal.Some?
      && Undelivered(lane.journal.value, digest)
      && (lane.journal.value.command.id, digest) !in lane.sidecars
    case Clear =>
      && lane.journal.Some? && lane.journal.value.phase.ResultPending?
      && lane.known.Answered? && lane.known.receipt.ResultReceipt? && lane.known.verdict.Recorded?
    case Release(_) => lane.known.Cleared?
    case Sweep(_) => lane.known.Idle? && (lane.journal.Some? ==> WellFormed(lane.journal.value))
  }

  function FolderOf(sidecars: set<(CommandId, Digest)>, id: CommandId): set<(CommandId, Digest)> {
    set file | file in sidecars && file.0 == id
  }

  predicate InJournaledFolder(lane: Lane, file: (CommandId, Digest)) {
    lane.journal.Some? && lane.journal.value.command.id == file.0
  }

  /** What the step adds to the log. */
  function EventOf(lane: Lane, step: Step): Option<Event>
    requires Enabled(lane, step)
  {
    match step
    case SettleUndelivered(id, _) => Some(SettledByServer(id))
    case Decay(id, digest) => Some(Decayed(id, digest))
    case Forget =>
      if lane.known.Judged? && lane.journal.Some?
      then Some(SettlementLost(lane.journal.value.command.id, lane.known.digest)) else None
    case Send(_, heard) =>
      var receipt := NextReceipt(lane.journal.value).value;
      Some(Sent(lane.journal.value.command.id, receipt, if heard then Some(VerdictOf(lane)) else None))
    case Load =>
      if lane.journal.value.phase.Executing? then Some(FoundExecuting(lane.journal.value.command.id)) else None
    case Execute => Some(Called(lane.journal.value.command.id))
    case Return(outcome) => Some(Answer(lane.journal.value.command.id, outcome))
    case Upload(digest, rejected, began) =>
      Some(ImageSettled(lane.journal.value.command.id, digest, if rejected.Some? then rejected.value else Delivered, Some(began)))
    case Silence(digest, _, withdrawn, began) =>
      if withdrawn.Some?
      then Some(ImageSettled(lane.journal.value.command.id, digest, withdrawn.value, Some(began))) else None
    case Missing(digest, bytes) =>
      Some(ImageSettled(lane.journal.value.command.id, digest, Withdrawn(LostOnMachine, bytes), None))
    case _ => None
  }

  /** The server's verdict on the journal's next receipt. */
  function VerdictOf(lane: Lane): Verdict
    requires lane.journal.Some? && NextReceipt(lane.journal.value).Some?
    requires lane.journal.value.command.id in lane.server
  {
    var id, receipt := lane.journal.value.command.id, NextReceipt(lane.journal.value).value;
    Judge(lane.server[id], receipt, ImagesKept(lane, id, receipt))
  }

  /** The step's effect on everything but the log. */
  function Effect(lane: Lane, step: Step): Lane
    requires Enabled(lane, step)
  {
    match step
    case Lease(id) => lane.(server := lane.server[id := Leased])
    case TimeOut(id) => lane.(server := lane.server[id := Unknown])
    case SettleUndelivered(id, result) => lane.(server := lane.server[id := Acknowledged(result)])
    case Decay(id, digest) => lane.(sidecars := lane.sidecars - {(id, digest)})
    case Forget => lane.(known := Idle)
    case Load => lane.(known := Holding)
    case Poll(command) => lane.(known := Polled(command))
    case Write(entry, survived) =>
      lane.(journal := Some(entry),
            known := if !survived then Idle else if entry.phase.Executing? then Armed else Holding)
    case Send(reached, heard) =>
      var id, receipt := lane.journal.value.command.id, NextReceipt(lane.journal.value).value;
      var state := AfterReceipt(lane.server[id], receipt, ImagesKept(lane, id, receipt));
      lane.(server := if reached then lane.server[id := state] else lane.server,
            known := if heard then Answered(receipt, VerdictOf(lane)) else Idle)
    case Execute => lane.(known := Running)
    case KeepSidecar(digest) => lane.(sidecars := lane.sidecars + {(lane.journal.value.command.id, digest)})
    case Return(outcome) => lane.(known := Returned(outcome))
    case Upload(digest, rejected, _) =>
      lane.(kept := if rejected.None? then lane.kept + {(lane.journal.value.command.id, digest)} else lane.kept,
            known := Judged(digest, if rejected.Some? then rejected.value else Delivered))
    case Silence(digest, stored, withdrawn, _) =>
      lane.(kept := if stored then lane.kept + {(lane.journal.value.command.id, digest)} else lane.kept,
            known := if withdrawn.Some? then Judged(digest, withdrawn.value) else Idle)
    case Missing(digest, bytes) => lane.(known := Judged(digest, Withdrawn(LostOnMachine, bytes)))
    case Clear => lane.(journal := None, known := Cleared(lane.journal.value.command.id))
    case Release(left) =>
      lane.(sidecars := lane.sidecars - (set file | file in FolderOf(lane.sidecars, lane.known.id) && file.1 !in left),
            known := Idle)
    // files of other folders stay only where removing them failed
    case Sweep(kept) =>
      lane.(sidecars := set file | file in lane.sidecars && (InJournaledFolder(lane, file) || file in kept))
  }

  function After(lane: Lane, step: Step): Lane
    requires Enabled(lane, step)
  {
    var event := EventOf(lane, step);
    Effect(lane, step).(log := if event.Some? then lane.log + [event.value] else lane.log)
  }

  // ------------------------------------------------------------------- runs

  const START: Lane := Lane(None, {}, map[], {}, Idle, [])

  /** Where `steps` lead from `lane`, if each can be taken in turn. */
  function Run(lane: Lane, steps: seq<Step>): Option<Lane>
    decreases |steps|
  {
    if steps == [] then Some(lane)
    else
      match Run(lane, steps[..|steps| - 1])
      case None => None
      case Some(before) =>
        if Enabled(before, steps[|steps| - 1]) then Some(After(before, steps[|steps| - 1])) else None
  }

  /** `lane` is where some run of the system stands. */
  ghost predicate Reachable(lane: Lane) {
    exists steps :: Run(START, steps) == Some(lane)
  }
}
