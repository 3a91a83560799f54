/** The promises of durable command execution, over every run of the lane. */
module LaneTheorems {
  import opened Options
  import opened Outcomes
  import opened CommandLane
  import opened LaneHistory
  import opened LaneSafety

  // ------------------------------------------------------------------- execution

  /** A command is executed at most once, whatever is lost, refused or interrupted. */
  lemma ExecutedAtMostOnce(lane: Lane, id: CommandId)
    requires Reachable(lane)
    ensures Calls(lane.log, id) <= 1
  {
    ReachableKeeps(lane);
    assert LogInv(lane, id);
  }

  lemma {:induction false} CallsCount(log: seq<Event>, id: CommandId, i: nat, j: nat)
    requires i < j < |log| && log[i] == log[j] == Called(id)
    ensures Calls(log, id) >= 2
  {
    var front := log[..|log| - 1];
    if j < |front| {
      CallsCount(front, id, i, j);
    } else {
      CallCounted(front, id, i);
    }
  }

  lemma {:induction false} CallCounted(log: seq<Event>, id: CommandId, i: nat)
    requires i < |log| && log[i] == Called(id)
    ensures Calls(log, id) >= 1
  {
    if i < |log| - 1 {
      CallCounted(log[..|log| - 1], id, i);
    }
  }

  /** The same promise said of the log itself: no two calls of one command. */
  lemma NoSecondExecution(lane: Lane, id: CommandId, i: nat, j: nat)
    requires Reachable(lane)
    requires i < |lane.log| && j < |lane.log| && lane.log[i] == lane.log[j] == Called(id)
    ensures i == j
  {
    ExecutedAtMostOnce(lane, id);
    if i < j {
      CallsCount(lane.log, id, i, j);
    } else if j < i {
      CallsCount(lane.log, id, j, i);
    }
  }

  // ------------------------------------------------------------------- results

  lemma {:induction false} AnswerCounted(log: seq<Event>, id: CommandId, outcome: Outcome)
    requires Answer(id, outcome) in log
    ensures Answers(log, id) >= 1
    ensures Answers(log, id) == 1 ==> forall other :: Answer(id, other) in log ==> other == outcome
  {
    var front, last := log[..|log| - 1], log[|log| - 1];
    assert log == front + [last];
    if Answer(id, outcome) in front {
      AnswerCounted(front, id, outcome);
    }
    if last == Answer(id, outcome) {
      forall other | Answer(id, other) in front ensures Answers(front, id) >= 1 {
        AnswerCounted(front, id, other);
      }
    }
  }

  /** Where a reported result came from. */
  ghost predicate Accounted(lane: Lane, id: CommandId, result: Outcome) {
    || result == UnknownOutcome
    || result == ResultRefused(false)
    || (&& Calls(lane.log, id) == 1
        && exists returned ::
             && Answer(id, returned) in lane.log && Trimmed(returned, result)
             && forall other :: Answer(id, other) in lane.log ==> other == returned)
  }

  lemma HonestIsAccounted(lane: Lane, id: CommandId, result: Outcome)
    requires Inv(lane) && Honest(lane.log, id, result)
    ensures Accounted(lane, id, result)
  {
    if result != UnknownOutcome && result != ResultRefused(false) {
      var returned :| Answer(id, returned) in lane.log && Trimmed(returned, result);
      AnswerCounted(lane.log, id, returned);
      assert LogInv(lane, id);
    }
  }

  /**
   * Every result ever sent is a sentinel, or the one answer of the one execution of that command
   * minus withdrawn images.
   */
  lemma SentResultsAreAccounted(lane: Lane, i: nat)
    requires Reachable(lane) && i < |lane.log|
    requires lane.log[i].Sent? && lane.log[i].receipt.ResultReceipt?
    ensures Accounted(lane, lane.log[i].id, lane.log[i].receipt.result)
  {
    ReachableKeeps(lane);
    HonestIsAccounted(lane, lane.log[i].id, lane.log[i].receipt.result);
  }

  /** So is every result the server recorded, and the server holds each image it references. */
  lemma RecordedResultsAreAccounted(lane: Lane, id: CommandId)
    requires Reachable(lane)
    requires id in lane.server && lane.server[id].Acknowledged? && SettledByServer(id) !in lane.log
    ensures Accounted(lane, id, lane.server[id].result)
    ensures forall d :: d in References(lane.server[id].result) ==> (id, d) in lane.kept
  {
    ReachableKeeps(lane);
    HonestIsAccounted(lane, id, lane.server[id].result);
  }

  // ------------------------------------------------------------------- receipts

  ghost predicate SentAt(log: seq<Event>, id: CommandId, i: int) {
    0 <= i < |log| && log[i].Sent? && log[i].id == id
  }

  ghost predicate FencedBefore(log: seq<Event>, id: CommandId, j: int) {
    exists i :: 0 <= i < j && SentAt(log, id, i) && log[i].heard == Some(Replay)
  }

  function ProgressRank(progress: Progress): nat {
    match progress
    case Unsent => 0
    case Accepting => 1
    case AcceptFenced => 1
    case Starting => 2
    case StartFenced => 2
    case Reporting => 4
    case Disordered => 5
  }

  lemma {:induction false} ProgressBoundsRanks(log: seq<Event>, id: CommandId)
    requires ProgressOf(log, id) != Disordered
    ensures forall i :: SentAt(log, id, i) ==> ReceiptRank(log[i].receipt) <= ProgressRank(ProgressOf(log, id))
    ensures forall i, j :: SentAt(log, id, i) && SentAt(log, id, j) && i <= j ==>
                             ReceiptRank(log[i].receipt) <= ReceiptRank(log[j].receipt)
  {
    if log != [] {
      var front := log[..|log| - 1];
      ProgressBoundsRanks(front, id);
      assert forall i :: 0 <= i < |front| ==> front[i] == log[i];
      assert forall i :: SentAt(log, id, i) && i < |front| ==> SentAt(front, id, i);
    }
  }

  /** What led to the present progress: a start, or a fence that was heard. */
  lemma {:induction false} ProgressHasCause(log: seq<Event>, id: CommandId)
    requires ProgressOf(log, id) != Disordered
    ensures ProgressOf(log, id) == Unsent <==> forall i :: !SentAt(log, id, i)
    ensures ProgressOf(log, id) in {Starting, StartFenced} ==>
              exists i :: SentAt(log, id, i) && log[i].receipt == StartedReceipt
    ensures ProgressOf(log, id) == AcceptFenced ==> FencedBefore(log, id, |log|)
    ensures ProgressOf(log, id) != Unsent ==> exists i :: SentAt(log, id, i) && log[i].receipt == AcceptedReceipt
  {
    if log != [] {
      var front := log[..|log| - 1];
      ProgressHasCause(front, id);
      forall i | SentAt(front, id, i) ensures SentAt(log, id, i) && log[i] == front[i] {}
      assert forall i :: SentAt(log, id, i) && i < |front| ==> SentAt(front, id, i);
      if FencedBefore(front, id, |front|) {
        var i :| 0 <= i < |front| && SentAt(front, id, i) && front[i].heard == Some(Replay);
        assert SentAt(log, id, i) && log[i].heard == Some(Replay);
      }
      if ProgressOf(log, id) != ProgressOf(front, id) {
        assert SentAt(log, id, |front|);
      }
    }
  }

  lemma {:induction false} EarlierProgress(log: seq<Event>, id: CommandId, n: nat)
    requires n <= |log| && ProgressOf(log, id) != Disordered
    ensures ProgressOf(log[..n], id) != Disordered
  {
    if n < |log| {
      assert log[..|log| - 1][..n] == log[..n];
      EarlierProgress(log[..|log| - 1], id, n);
    } else {
      assert log[..n] == log;
    }
  }

  /**
   * Receipts of one command go out as accepted+ started+ result+: their ranks never fall, a started
   * or result receipt follows an accepted one, and a result that no started receipt precedes
   * follows a replay fence.
   */
  lemma ReceiptsFollowTheProtocol(lane: Lane, id: CommandId, j: nat)
    requires Reachable(lane) && SentAt(lane.log, id, j)
    ensures forall i :: SentAt(lane.log, id, i) && i <= j ==>
                          ReceiptRank(lane.log[i].receipt) <= ReceiptRank(lane.log[j].receipt)
    ensures !lane.log[j].receipt.AcceptedReceipt? ==>
              exists i :: 0 <= i < j && SentAt(lane.log, id, i) && lane.log[i].receipt == AcceptedReceipt
    ensures lane.log[j].receipt.ResultReceipt? ==>
              || FencedBefore(lane.log, id, j)
              || exists i :: 0 <= i < j && SentAt(lane.log, id, i) && lane.log[i].receipt == StartedReceipt
  {
    ReachableKeeps(lane);
    assert LogInv(lane, id);
    ProgressBoundsRanks(lane.log, id);
    SentHasCause(lane.log, id, j);
  }

  lemma SentHasCause(log: seq<Event>, id: CommandId, j: nat)
    requires ProgressOf(log, id) != Disordered && SentAt(log, id, j)
    ensures !log[j].receipt.AcceptedReceipt? ==>
              exists i :: 0 <= i < j && SentAt(log, id, i) && log[i].receipt == AcceptedReceipt
    ensures log[j].receipt.ResultReceipt? ==>
              || FencedBefore(log, id, j)
              || exists i :: 0 <= i < j && SentAt(log, id, i) && log[i].receipt == StartedReceipt
  {
    EarlierProgress(log, id, j + 1);
    EarlierProgress(log, id, j);
    var before := log[..j];
    assert log[..j + 1][..j] == before;
    ProgressHasCause(before, id);
    assert forall i :: SentAt(before, id, i) ==> SentAt(log, id, i) && log[i] == before[i];
    if log[j].receipt.ResultReceipt? && ProgressOf(before, id) == LaneHistory.Reporting {
      ReportingHasCause(before, id);
      var k :| SentAt(before, id, k) && (before[k].heard == Some(Replay) || before[k].receipt == StartedReceipt);
      assert SentAt(log, id, k);
    }
  }

  lemma {:induction false} ReportingHasCause(log: seq<Event>, id: CommandId)
    requires ProgressOf(log, id) == LaneHistory.Reporting
    ensures exists i :: SentAt(log, id, i) && (log[i].heard == Some(Replay) || log[i].receipt == StartedReceipt)
  {
    var front := log[..|log| - 1];
    assert ProgressOf(front, id) != Disordered;
    if ProgressOf(front, id) == LaneHistory.Reporting {
      ReportingHasCause(front, id);
    } else {
      ProgressHasCause(front, id);
    }
    var i :| SentAt(front, id, i) && (front[i].heard == Some(Replay) || front[i].receipt == StartedReceipt);
    assert SentAt(log, id, i) && log[i] == front[i];
  }

  // ------------------------------------------------------------------- settled by the server

  /** What may have been sent for a command the server settled by itself. */
  ghost predicate SettledSends(lane: Lane, id: CommandId) {
    Settled(lane, id) ==>
      forall i :: SentAt(lane.log, id, i) ==> lane.log[i].receipt in {AcceptedReceipt, ResultReceipt(UnknownOutcome)}
  }

  lemma SettledSendsKept(lane: Lane, step: Step, id: CommandId)
    requires Inv(lane) && Enabled(lane, step) && SettledSends(lane, id)
    ensures SettledSends(After(lane, step), id)
  {
    if step.SettleUndelivered? {
      SettledSendsBySettling(lane, step, id);
    } else if Settled(After(lane, step), id) {
      SettledSendsLater(lane, step, id);
    }
  }

  lemma SettledSendsBySettling(lane: Lane, step: Step, id: CommandId)
    requires Inv(lane) && Enabled(lane, step) && SettledSends(lane, id) && step.SettleUndelivered?
    ensures SettledSends(After(lane, step), id)
  {
    assert LogInv(lane, id);
    assert After(lane, step).log == lane.log + [SettledByServer(step.id)];
    assert forall i :: SentAt(After(lane, step).log, id, i) ==> SentAt(lane.log, id, i);
    if step.id == id {
      ProgressBoundsRanks(lane.log, id);
    }
  }

  lemma SettledSendsLater(lane: Lane, step: Step, id: CommandId)
    requires Inv(lane) && Enabled(lane, step) && SettledSends(lane, id)
    requires !step.SettleUndelivered? && Settled(After(lane, step), id)
    ensures SettledSends(After(lane, step), id)
  {
    var later, event := After(lane, step), EventOf(lane, step);
    assert LogInv(lane, id);
    assert Settled(lane, id);
    forall i | SentAt(later.log, id, i) ensures later.log[i].receipt in {AcceptedReceipt, ResultReceipt(UnknownOutcome)} {
      if i < |lane.log| {
        assert SentAt(lane.log, id, i);
      } else {
        assert step.Send? && Journaled(lane, id);
      }
    }
  }

  lemma {:induction false} SettledSendsAlong(steps: seq<Step>, id: CommandId)
    requires Run(START, steps).Some?
    ensures SettledSends(Run(START, steps).value, id)
    decreases |steps|
  {
    if steps != [] {
      var front := steps[..|steps| - 1];
      SettledSendsAlong(front, id);
      RunKeeps(front);
      SettledSendsKept(Run(START, front).value, steps[|steps| - 1], id);
    }
  }

  /**
   * A command the server settled by itself never ran, even if it had been handed out: no started
   * receipt was ever sent for it, and no result but the unknown outcome.
   */
  lemma SettledCommandsNeverRan(lane: Lane, id: CommandId)
    requires Reachable(lane) && Settled(lane, id)
    ensures Calls(lane.log, id) == 0
    ensures forall i :: SentAt(lane.log, id, i) ==> lane.log[i].receipt in {AcceptedReceipt, ResultReceipt(UnknownOutcome)}
  {
    ReachableKeeps(lane);
    assert LogInv(lane, id);
    var steps :| Run(START, steps) == Some(lane);
    SettledSendsAlong(steps, id);
  }

  // ------------------------------------------------------------------- the journal

  /** The pass has polled the command and not yet journaled it. */
  ghost predicate HandedOut(lane: Lane, id: CommandId) {
    lane.known.Polled? && lane.known.command.id == id
  }

  /** How far the journal has taken a command; 5 once its entry can come back no more. */
  ghost function Standing(lane: Lane, id: CommandId): nat {
    if Journaled(lane, id) then RankOf(lane.journal.value.phase)
    else if id in lane.server && lane.server[id].Acknowledged? && !HandedOut(lane, id) then 5
    else 0
  }

  lemma StandingNeverFalls(lane: Lane, step: Step, id: CommandId)
    requires Inv(lane) && Enabled(lane, step)
    ensures Standing(lane, id) <= Standing(After(lane, step), id)
  {
    assert LogInv(lane, id);
  }

  lemma {:induction false} StandingAlongRun(steps: seq<Step>, n: nat, id: CommandId)
    requires n <= |steps| && Run(START, steps).Some?
    ensures Run(START, steps[..n]).Some?
    ensures Standing(Run(START, steps[..n]).value, id) <= Standing(Run(START, steps).value, id)
    decreases |steps|
  {
    if n == |steps| {
      assert steps[..n] == steps;
    } else {
      var front := steps[..|steps| - 1];
      assert front[..n] == steps[..n];
      StandingAlongRun(front, n, id);
      RunKeeps(front);
      StandingNeverFalls(Run(START, front).value, steps[|steps| - 1], id);
    }
  }

  /**
   * The durable phase never moves backwards, and an entry that was cleared never comes back: at any
   * two moments of a run that both journal the command, the later phase is at least the earlier.
   */
  lemma PhaseNeverMovesBack(steps: seq<Step>, n: nat, id: CommandId)
    requires n <= |steps| && Run(START, steps).Some? && Run(START, steps[..n]).Some?
    requires Journaled(Run(START, steps).value, id)
    ensures Journaled(Run(START, steps[..n]).value, id) ==>
              RankOf(Run(START, steps[..n]).value.journal.value.phase)
              <= RankOf(Run(START, steps).value.journal.value.phase)
    ensures !Journaled(Run(START, steps[..n]).value, id) ==>
              Standing(Run(START, steps[..n]).value, id) == 0
  {
    StandingAlongRun(steps, n, id);
  }

  /**
   * The server's answer to the journal's result receipt, in every reachable state: a replay fence if
   * and only if the server had settled the command by itself with another result; else recorded, or
   * refused for its shape. It is never a complaint about missing images.
   */
  lemma ResultReceiptFencedExactly(lane: Lane)
    requires Reachable(lane) && lane.journal.Some? && ReadyToReport(lane.journal.value)
    ensures var id, result := lane.journal.value.command.id, lane.journal.value.result.value;
            && id in lane.server
            && (VerdictOf(lane) == Replay <==> Settled(lane, id) && lane.server[id] != Acknowledged(result))
            && (VerdictOf(lane) == Invalid <==> !Acceptable(result))
  {
    ReachableKeeps(lane);
    assert LogInv(lane, lane.journal.value.command.id);
  }

  /** The journal holds a result the server will fence for ever. */
  ghost predicate Fenced(lane: Lane) {
    && lane.journal.Some? && lane.journal.value == Terminal(lane.journal.value)
    && lane.journal.value.command.id in lane.server
    && var held := lane.server[lane.journal.value.command.id];
    && held.Acknowledged? && held.result != UnknownOutcome
    && (lane.known in {Idle, Holding} || lane.known == Answered(ResultReceipt(UnknownOutcome), Replay))
  }

  /** A journaled result whose receipt is fenced is such a state. */
  lemma FencedResultIsFenced(lane: Lane)
    requires Reachable(lane) && lane.journal.Some? && ReadyToReport(lane.journal.value)
    requires lane.journal.value.command.id in lane.server && VerdictOf(lane) == Replay
    ensures Fenced(lane)
  {
    ReachableKeeps(lane);
    assert LogInv(lane, lane.journal.value.command.id);
  }

  /** No step of the executor or the server leads out of it. */
  lemma FencedForGood(lane: Lane, step: Step)
    requires Fenced(lane) && Enabled(lane, step)
    ensures Fenced(After(lane, step)) && After(lane, step).journal == lane.journal
  {
  }

  /**
   * It happens: a command is polled and journaled, and then a poll the executor had given up on reaches
   * the server, which finds the command undeliverable by now and settles it.
   */
  lemma LateSettlementFences()
    ensures exists lane :: Reachable(lane) && Fenced(lane)
  {
    var command := Command(7, 100);
    var lane, steps := CommandIsJournaled(command);
    var entry := lane.journal.value;
    lane, steps := Takes(lane, steps, SettleUndelivered(7, ResultRefused(true)));
    lane, steps := Takes(lane, steps, Send(true, true));
    lane, steps := Takes(lane, steps, Write(Terminal(entry), true));
    assert Fenced(lane);
  }

  /** A journal entry `load` refuses. Only an execution that returned `{}` leaves one. */
  lemma UnreadableOnlyForEmptyResult(lane: Lane)
    requires Reachable(lane) && lane.journal.Some?
    ensures !WellFormed(lane.journal.value) <==> lane.journal.value.result == Some(EmptyObject)
    ensures !WellFormed(lane.journal.value) ==> Answer(lane.journal.value.command.id, EmptyObject) in lane.log
  {
    ReachableKeeps(lane);
  }

  ghost predicate Wedged(lane: Lane) {
    lane.known.Idle? && lane.journal.Some? && !WellFormed(lane.journal.value)
  }

  /** Once a pass ended on such an entry, no step of the executor or the server gets past it. */
  lemma WedgedForGood(lane: Lane, step: Step)
    requires Wedged(lane) && Enabled(lane, step)
    ensures Wedged(After(lane, step)) && After(lane, step).journal == lane.journal
  {
  }

  /**
   * It is reachable: an execution returning `{}`, and a crash right after it was journaled. The interface
   * admits that answer; no branch of the daemon's `executeExecutorCommand` gives it.
   */
  lemma EmptyResultWedges()
    ensures exists lane :: Reachable(lane) && Wedged(lane)
  {
    var entry, lane, steps := CommandRuns(Command(7, 100));
    lane, steps := Takes(lane, steps, Return(EmptyObject));
    lane, steps := Takes(lane, steps, Write(Entry(entry.command, ResultPending, Some(EmptyObject), None), false));
    assert Wedged(lane);
  }

  /** A leased command is polled and journaled. */
  lemma CommandIsJournaled(command: Command) returns (lane: Lane, steps: seq<Step>)
    ensures Run(START, steps) == Some(lane)
    ensures lane.journal == Some(Entry(command, AcceptedPending, None, None)) && lane.known == Holding
    ensures lane.server == map[command.id := Leased]
  {
    lane, steps := Takes(START, [], Lease(command.id));
    lane, steps := Takes(lane, steps, Poll(command));
    lane, steps := Takes(lane, steps, Write(Entry(command, AcceptedPending, None, None), true));
  }

  /** Without faults the first command goes straight to its execution. */
  lemma CommandRuns(command: Command) returns (entry: Entry, lane: Lane, steps: seq<Step>)
    ensures Run(START, steps) == Some(lane) && Reachable(lane)
    ensures entry == Entry(command, Executing, None, None)
    ensures lane.journal == Some(entry) && lane.known == Running
  {
    var accepted := Entry(command, AcceptedPending, None, None);
    lane, steps := CommandIsJournaled(command);
    lane, steps := TakesReceipt(lane, steps, AcceptedReceipt);
    lane, steps := Takes(lane, steps, Write(accepted.(phase := StartedPending), true));
    lane, steps := TakesReceipt(lane, steps, StartedReceipt);
    entry := accepted.(phase := Executing);
    lane, steps := Takes(lane, steps, Write(entry, true));
    lane, steps := Takes(lane, steps, Execute);
  }

  /** A receipt that reaches the server and is answered. */
  lemma TakesReceipt(lane: Lane, steps: seq<Step>, receipt: Receipt) returns (next: Lane, longer: seq<Step>)
    requires Run(START, steps) == Some(lane) && lane.known.Holding? && lane.journal.Some?
    requires NextReceipt(lane.journal.value) == Some(receipt) && lane.journal.value.command.id in lane.server
    requires VerdictOf(lane) == Recorded && !receipt.ResultReceipt?
    ensures Run(START, longer) == Some(next)
    ensures next.journal == lane.journal && next.known == Answered(receipt, Recorded)
    ensures lane.journal.value.command.id in next.server
    ensures next.server[lane.journal.value.command.id] == if receipt.AcceptedReceipt? then Accepted else Started
  {
    next, longer := Takes(lane, steps, Send(true, true));
  }

  lemma Takes(lane: Lane, steps: seq<Step>, step: Step) returns (next: Lane, longer: seq<Step>)
    requires Run(START, steps) == Some(lane) && Enabled(lane, step)
    ensures next == After(lane, step) && longer == steps + [step]
    ensures Run(START, longer) == Some(next)
    ensures Reachable(next)
  {
    next, longer := After(lane, step), steps + [step];
    assert longer[..|longer| - 1] == steps;
  }

  // ------------------------------------------------------------------- images and sidecars

  /** An image is answered for or given up once, plus once per settlement a crash or failed save forgot. */
  lemma ImageSettledOncePerLoss(lane: Lane, id: CommandId, digest: Digest)
    requires Reachable(lane)
    ensures Settlements(lane.log, id, digest) <= 1 + Losses(lane.log, id, digest)
  {
    ReachableKeeps(lane);
    assert UploadInv(lane, id, digest);
  }

  /** The bytes of every image still owed are on disk, unless the disk lost them. */
  lemma OwedImagesHaveSidecars(lane: Lane, digest: Digest)
    requires Reachable(lane) && lane.journal.Some? && Undelivered(lane.journal.value, digest)
    ensures || (lane.journal.value.command.id, digest) in lane.sidecars
            || Decayed(lane.journal.value.command.id, digest) in lane.log
  {
    ReachableKeeps(lane);
  }

  /**
   * The start's sweep leaves the journaled command's folder whole, whatever fails, and of the others
   * only what could not be removed.
   */
  lemma SweepKeepsOnlyTheJournaled(lane: Lane, kept: set<(CommandId, Digest)>, id: CommandId)
    requires Enabled(lane, Sweep(kept))
    ensures FolderOf(After(lane, Sweep(kept)).sidecars, id)
            == if Journaled(lane, id) then FolderOf(lane.sidecars, id) else FolderOf(lane.sidecars * kept, id)
  {
  }

  /** The command is over and its folder is gone. */
  ghost predicate FolderGone(lane: Lane, id: CommandId) {
    && !Journaled(lane, id) && id in lane.server && lane.server[id].Acknowledged?
    && FolderOf(lane.sidecars, id) == {} && !HandedOut(lane, id)
  }

  /** A completed release makes it so, as does the next start's sweep. */
  lemma ReleaseRemovesFolder(lane: Lane)
    requires Reachable(lane) && lane.known.Cleared?
    ensures lane.journal.None?
    ensures FolderGone(After(lane, Release({})), lane.known.id)
    ensures FolderGone(After(After(lane, Forget), Sweep({})), lane.known.id)
  {
    ReachableKeeps(lane);
  }

  /** And it stays gone: a finished command is never polled, executed or written to again. */
  lemma FolderStaysGone(lane: Lane, step: Step, id: CommandId)
    requires Reachable(lane) && FolderGone(lane, id) && Enabled(lane, step)
    ensures FolderGone(After(lane, step), id)
  {
    ReachableKeeps(lane);
    var later := After(lane, step);
    assert FolderOf(later.sidecars, id) <= FolderOf(lane.sidecars, id) by {
      forall file | file in FolderOf(later.sidecars, id) ensures file in lane.sidecars {}
    }
  }
}
