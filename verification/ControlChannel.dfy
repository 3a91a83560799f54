/**
 * The host's end of the guest control channel: a ready line, then response frames, one request at a time.
 */
module ControlChannel {
  import opened Options
  import opened Bytes
  import opened ControlFrames

  const READY_MAX: nat := 4096
  const NEWLINE: Byte := 10

  datatype Readiness = Waiting | Ready | Failed

  datatype Outcome = Resolved(payload: seq<Byte>) | Rejected

  datatype Settlement = Settlement(requestId: RequestId, outcome: Outcome)

  datatype Answer = Answer(requestId: seq<Byte>, payload: seq<Byte>)

  /** Parsing of JSON text, as parameters: a response frame's body and the ready line. */
  datatype Parsers = Parsers(response: seq<Byte> -> Option<Answer>, ready: seq<Byte> -> bool)

  datatype Channel = Channel(
    output: seq<Byte>,
    closed: bool,
    readiness: Readiness,
    pending: Option<RequestId>,
    /** What each request's promise came to, in order. */
    settled: seq<Settlement>,
    /** The bodies of the request frames written to the guest. */
    sent: seq<Message>)

  datatype Event =
    | Receive(chunk: seq<Byte>)
    | Request(payload: seq<Byte>, requestId: RequestId)
    /** A timeout, a broken pipe, or the owner closing the channel. */
    | Close

  const OPENED := Channel([], false, Waiting, None, [], [])

  // ------------------------------------------------------------------- what each operation does

  function Closed(ch: Channel): Channel {
    if ch.closed then ch
    else
      ch.(closed := true,
          readiness := if ch.readiness == Waiting then Failed else ch.readiness,
          pending := None,
          settled := match ch.pending
                     case None => ch.settled
                     case Some(id) => ch.settled + [Settlement(id, Rejected)])
  }

  function Requested(ch: Channel, payload: seq<Byte>, id: RequestId): Channel {
    if ch.closed || ch.readiness != Ready || ch.pending.Some? || |payload| > PAYLOAD_MAX then
      ch.(settled := ch.settled + [Settlement(id, Rejected)])
    else
      var message := Message(Kind.Request, payload, id);
      if |Text(message)| > BODY_MAX then
        // The encoder throws after the request was made pending: it would stay so.
        ch.(pending := Some(id), settled := ch.settled + [Settlement(id, Rejected)])
      else ch.(pending := Some(id), sent := ch.sent + [message])
  }

  function IndexOf(bytes: seq<Byte>, b: Byte): (at: int)
    ensures at < 0 ==> b !in bytes
    ensures at >= 0 ==> at < |bytes| && bytes[at] == b && b !in bytes[..at]
  {
    if bytes == [] then -1
    else if bytes[0] == b then 0
    else
      var later := IndexOf(bytes[1..], b);
      assert bytes == [bytes[0]] + bytes[1..];
      if later < 0 then -1
      else
        assert bytes[..later + 1] == [bytes[0]] + bytes[1..][..later];
        later + 1
  }

  function ReadyConsumed(parsers: Parsers, ch: Channel): Channel {
    if |ch.output| > READY_MAX then Closed(ch)
    else
      var lineEnd := IndexOf(ch.output, NEWLINE);
      if lineEnd < 0 then ch
      else
        var rest := ch.(output := ch.output[lineEnd + 1..]);
        if parsers.ready(ch.output[..lineEnd]) then rest.(readiness := Ready) else Closed(rest)
  }

  /** The bytes begin with a ready line, which `more` follows. */
  ghost predicate ReadyLine(parsers: Parsers, bytes: seq<Byte>, more: seq<Byte>) {
    exists line :: bytes == line + [NEWLINE] + more && NEWLINE !in line && parsers.ready(line)
  }

  /** One response body, wherever its bytes came from. */
  function Handled(parsers: Parsers, ch: Channel, body: seq<Byte>): Channel {
    match parsers.response(body)
    case None => Closed(ch)
    case Some(answer) =>
      if ch.pending.None? || answer.requestId != ch.pending.value then Closed(ch)
      else ch.(pending := None, settled := ch.settled + [Settlement(ch.pending.value, Resolved(answer.payload))])
  }

  function ResponsesConsumed(parsers: Parsers, ch: Channel): Channel
    decreases |ch.output|
  {
    if ch.closed then ch
    else
      match ReadFrame(ch.output)
      case Short => ch
      case Oversized => Closed(ch)
      case Got(body, rest) => ResponsesConsumed(parsers, Handled(parsers, ch.(output := rest), body))
  }

  function Received(parsers: Parsers, ch: Channel, chunk: seq<Byte>): Channel {
    if ch.closed || ch.readiness == Failed then ch
    else
      var longer := ch.(output := ch.output + chunk);
      var begun := if ch.readiness == Ready then longer else ReadyConsumed(parsers, longer);
      if begun.readiness == Ready then ResponsesConsumed(parsers, begun) else begun
  }

  function After(parsers: Parsers, ch: Channel, event: Event): Channel {
    match event
    case Receive(chunk) => Received(parsers, ch, chunk)
    case Request(payload, id) => Requested(ch, payload, id)
    case Close => Closed(ch)
  }

  function Run(parsers: Parsers, ch: Channel, events: seq<Event>): Channel {
    if events == [] then ch
    else After(parsers, Run(parsers, ch, events[..|events| - 1]), events[|events| - 1])
  }

  // ------------------------------------------------------------------- the client

  class GuestVmControlClient {
    const parsers: Parsers
    var output: seq<Byte>
    var closed: bool
    var readiness: Readiness
    var pending: Option<RequestId>
    var settled: seq<Settlement>
    var sent: seq<Message>

    ghost function State(): Channel
      reads this
    {
      Channel(output, closed, readiness, pending, settled, sent)
    }

    constructor (parsers: Parsers)
      ensures State() == OPENED && this.parsers == parsers
    {
      this.parsers := parsers;
      output, closed, readiness, pending, settled, sent := [], false, Waiting, None, [], [];
    }

    method Shut()
      modifies this
      ensures State() == Closed(old(State()))
    {
      if closed {
        return;
      }
      closed := true;
      if readiness == Waiting {
        readiness := Failed;
      }
      if pending.Some? {
        settled := settled + [Settlement(pending.value, Rejected)];
        pending := None;
      }
    }

    /**
     * The new request is settled or the one pending, once. It goes out exactly if the channel is open,
     * ready and free and the payload is admitted: then its envelope always fits a frame.
     */
    method Ask(payload: seq<Byte>, requestId: RequestId)
      modifies this
      ensures State() == Requested(old(State()), payload, requestId)
      ensures Sound(old(State())) ==>
                Sound(State()) && Accounted(State()) == Accounted(old(State())) + multiset{requestId}
      ensures if old(!closed && readiness == Ready && pending.None?) && |payload| <= PAYLOAD_MAX
              then sent == old(sent) + [Message(Kind.Request, payload, requestId)]
                   && settled == old(settled) && pending == Some(requestId)
              else sent == old(sent)
                   && settled == old(settled) + [Settlement(requestId, Rejected)] && pending == old(pending)
    {
      ghost var before := State();
      if closed || readiness != Ready || pending.Some? || |payload| > PAYLOAD_MAX {
        settled := settled + [Settlement(requestId, Rejected)];
      } else {
        pending := Some(requestId);
        var message := Message(Kind.Request, payload, requestId);
        if |Text(message)| > BODY_MAX {
          settled := settled + [Settlement(requestId, Rejected)];
        } else {
          sent := sent + [message];
        }
      }
      RequestGoesOut(before, payload, requestId);
    }

    method Take(chunk: seq<Byte>)
      modifies this
      ensures State() == Received(parsers, old(State()), chunk)
    {
      if closed || readiness == Failed {
        return;
      }
      output := output + chunk;
      if readiness != Ready {
        ConsumeReady();
      }
      if readiness == Ready {
        ConsumeResponses();
      }
    }

    /** The channel becomes ready exactly for a ready line within the limit, and keeps what follows it. */
    method ConsumeReady()
      modifies this
      ensures State() == ReadyConsumed(parsers, old(State()))
      ensures Accounted(State()) == Accounted(old(State())) && sent == old(sent)
      ensures old(!closed && readiness == Waiting) ==>
                if readiness == Ready
                then !closed && |old(output)| <= READY_MAX && ReadyLine(parsers, old(output), output)
                else forall more :: |old(output)| <= READY_MAX ==> !ReadyLine(parsers, old(output), more)
    {
      if !closed && readiness == Waiting {
        ReadyLineDecides(parsers, State());
      }
      ClosingAccounts(State());
      if |output| > READY_MAX {
        Shut();
        return;
      }
      var lineEnd := IndexOf(output, NEWLINE);
      if lineEnd < 0 {
        return;
      }
      var line := output[..lineEnd];
      output := output[lineEnd + 1..];
      if parsers.ready(line) {
        readiness := Ready;
      } else {
        Shut();
      }
    }

    /** A frame that answers the pending request resolves it; any other whole frame closes the channel. */
    method ConsumeResponses()
      modifies this
      ensures State() == ResponsesConsumed(parsers, old(State()))
      ensures var answer := old(OnlyResponse(parsers, output));
              old(!closed && pending.Some?) && answer.Some? && answer.value.requestId == old(pending).value ==>
                && settled == old(settled) + [Settlement(answer.value.requestId, Resolved(answer.value.payload))]
                && pending.None? && !closed && output == []
    {
      OnlyResponseResolves(parsers, State());
      var running := !closed;
      while running && |output| >= 4
        invariant running ==> !closed
        invariant ResponsesConsumed(parsers, State()) == ResponsesConsumed(parsers, old(State()))
        invariant !running ==> State() == ResponsesConsumed(parsers, State())
        decreases if running then |output| + 1 else 0
      {
        var bodyLength := ReadBigEndian(output);
        if bodyLength > BODY_MAX {
          Shut();
          running := false;
        } else if |output| < bodyLength + 4 {
          running := false;
        } else {
          assert ReadFrame(output) == Got(output[4..bodyLength + 4], output[bodyLength + 4..]);
          var frame := output[4..bodyLength + 4];
          output := output[bodyLength + 4..];
          var response := parsers.response(frame);
          if response.None? || pending.None? || response.value.requestId != pending.value {
            Shut();
            running := false;
          } else {
            settled := settled + [Settlement(pending.value, Resolved(response.value.payload))];
            pending := None;
          }
        }
      }
    }
  }

  // ------------------------------------------------------------------- chunks do not matter

  /** What anyone can still tell apart: a closed channel's leftover bytes are never looked at again. */
  predicate Alike(one: Channel, other: Channel) {
    && one.closed == other.closed && one.readiness == other.readiness && one.pending == other.pending
    && one.settled == other.settled && one.sent == other.sent && (one.closed || one.output == other.output)
  }

  /** Nothing complete is left unread. */
  predicate Quiet(ch: Channel) {
    ch.closed || (if ch.readiness == Ready then ReadFrame(ch.output).Short? else |ch.output| <= READY_MAX)
  }

  lemma HandledKeepsOutput(parsers: Parsers, ch: Channel, body: seq<Byte>)
    ensures Handled(parsers, ch, body).output == ch.output
    ensures Handled(parsers, ch, body).sent == ch.sent
    ensures ch.readiness == Ready ==> Handled(parsers, ch, body).readiness == Ready
  {
  }

  lemma {:induction false} ConsumedIsQuiet(parsers: Parsers, ch: Channel)
    requires ch.readiness == Ready
    ensures Quiet(ResponsesConsumed(parsers, ch)) && ResponsesConsumed(parsers, ch).readiness == Ready
    decreases |ch.output|
  {
    if !ch.closed && ReadFrame(ch.output).Got? {
      var Got(body, rest) := ReadFrame(ch.output);
      HandledKeepsOutput(parsers, ch.(output := rest), body);
      ConsumedIsQuiet(parsers, Handled(parsers, ch.(output := rest), body));
    }
  }

  /** Consuming what is there and then what comes after is consuming both at once. */
  lemma {:induction false} ConsumeInTwo(parsers: Parsers, ch: Channel, more: seq<Byte>)
    requires ch.readiness == Ready
    ensures var first := ResponsesConsumed(parsers, ch);
            Alike(ResponsesConsumed(parsers, ch.(output := ch.output + more)),
                  ResponsesConsumed(parsers, first.(output := first.output + more)))
    decreases |ch.output|
  {
    ReadingIsStable(ch.output, more);
    if !ch.closed && ReadFrame(ch.output).Got? {
      var Got(body, rest) := ReadFrame(ch.output);
      var next := Handled(parsers, ch.(output := rest), body);
      HandledKeepsOutput(parsers, ch.(output := rest), body);
      ConsumeInTwo(parsers, next, more);
      assert Handled(parsers, ch.(output := rest + more), body) == next.(output := rest + more);
    }
  }

  /** Once ready, two chunks are as good as one. */
  lemma TwoChunksAreOne(parsers: Parsers, ch: Channel, one: seq<Byte>, two: seq<Byte>)
    requires ch.readiness == Ready
    ensures Alike(Received(parsers, Received(parsers, ch, one), two), Received(parsers, ch, one + two))
  {
    if !ch.closed {
      var begun := ch.(output := ch.output + one);
      ConsumeInTwo(parsers, begun, two);
      ConsumedIsQuiet(parsers, begun);
      assert ch.output + (one + two) == ch.output + one + two;
    }
  }

  function Fed(parsers: Parsers, ch: Channel, chunks: seq<seq<Byte>>): Channel
    decreases |chunks|
  {
    if chunks == [] then ch else Fed(parsers, Received(parsers, ch, chunks[0]), chunks[1..])
  }

  lemma {:induction false} ChunksAreOne(parsers: Parsers, ch: Channel, chunks: seq<seq<Byte>>)
    requires ch.readiness == Ready && Quiet(ch)
    ensures Alike(Fed(parsers, ch, chunks), Received(parsers, ch, Flatten(chunks)))
    decreases |chunks|
  {
    if chunks == [] {
      assert ch.output + [] == ch.output;
    } else {
      var first := Received(parsers, ch, chunks[0]);
      if ch.closed {
        ChunksAreOne(parsers, ch, chunks[1..]);
      } else {
        ConsumedIsQuiet(parsers, ch.(output := ch.output + chunks[0]));
        ChunksAreOne(parsers, first, chunks[1..]);
        TwoChunksAreOne(parsers, ch, chunks[0], Flatten(chunks[1..]));
      }
    }
  }

  /** After readiness only the byte stream matters, not how the pipe cut it up. */
  lemma ChunksDoNotMatter(parsers: Parsers, ch: Channel, some: seq<seq<Byte>>, others: seq<seq<Byte>>)
    requires ch.readiness == Ready && Quiet(ch) && Flatten(some) == Flatten(others)
    ensures Alike(Fed(parsers, ch, some), Fed(parsers, ch, others))
  {
    ChunksAreOne(parsers, ch, some);
    ChunksAreOne(parsers, ch, others);
  }

  function HandledAll(parsers: Parsers, ch: Channel, bodies: seq<seq<Byte>>): Channel
    decreases |bodies|
  {
    if bodies == [] || ch.closed then ch else HandledAll(parsers, Handled(parsers, ch, bodies[0]), bodies[1..])
  }

  lemma {:induction false} FramesAreHandled(parsers: Parsers, ch: Channel, bodies: seq<seq<Byte>>)
    requires ch.readiness == Ready && !ch.closed && ch.output == []
    requires forall i :: 0 <= i < |bodies| ==> |bodies[i]| <= BODY_MAX
    ensures Alike(ResponsesConsumed(parsers, ch.(output := Frames(bodies))), HandledAll(parsers, ch, bodies))
    decreases |bodies|
  {
    if bodies != [] {
      FrameReadsBack(bodies[0], Frames(bodies[1..]));
      var next := Handled(parsers, ch, bodies[0]);
      if !next.closed {
        FramesAreHandled(parsers, next, bodies[1..]);
        assert Handled(parsers, ch.(output := Frames(bodies[1..])), bodies[0]) == next.(output := Frames(bodies[1..]));
      }
    }
  }

  /** However the guest's frames arrive, the host handles exactly their bodies, in order. */
  lemma StreamedFramesAreHandled(parsers: Parsers, ch: Channel, bodies: seq<seq<Byte>>, chunks: seq<seq<Byte>>)
    requires ch.readiness == Ready && !ch.closed && ch.output == []
    requires forall i :: 0 <= i < |bodies| ==> |bodies[i]| <= BODY_MAX
    requires Flatten(chunks) == Frames(bodies)
    ensures Alike(Fed(parsers, ch, chunks), HandledAll(parsers, ch, bodies))
  {
    ChunksAreOne(parsers, ch, chunks);
    FramesAreHandled(parsers, ch, bodies);
    assert ch.output + Frames(bodies) == Frames(bodies);
  }

  /** Before readiness chunks do matter: a ready line is refused if too much arrived along with it. */
  lemma ReadyLineNeedsRoom(parsers: Parsers, line: seq<Byte>, more: seq<Byte>)
    requires parsers.ready(line) && NEWLINE !in line && |line| < READY_MAX
    ensures var next := Received(parsers, OPENED, line + [NEWLINE] + more);
            (next.readiness == Ready) <==> (|line| + 1 + |more| <= READY_MAX)
    ensures Received(parsers, Received(parsers, OPENED, line + [NEWLINE]), more).readiness == Ready
  {
    ReadyLineArrives(parsers, line, more);
    ReadyLineArrives(parsers, line, []);
    assert line + [NEWLINE] + [] == line + [NEWLINE];
    var begun := OPENED.(readiness := Ready);
    ConsumedIsQuiet(parsers, begun.(output := more));
    ConsumedIsQuiet(parsers, begun);
    TwoChunksAreOne(parsers, begun, [], more);
    assert [] + more == more;
  }

  lemma ReadyLineArrives(parsers: Parsers, line: seq<Byte>, more: seq<Byte>)
    requires parsers.ready(line) && NEWLINE !in line
    ensures Received(parsers, OPENED, line + [NEWLINE] + more)
            == if |line| + 1 + |more| > READY_MAX then Closed(OPENED.(output := line + [NEWLINE] + more))
               else ResponsesConsumed(parsers, OPENED.(output := more, readiness := Ready))
  {
    var bytes := line + [NEWLINE] + more;
    FirstNewline(line, more);
    assert OPENED.output + bytes == bytes;
    assert bytes[..|line|] == line && bytes[|line| + 1..] == more;
  }

  lemma FirstNewline(line: seq<Byte>, more: seq<Byte>)
    requires NEWLINE !in line
    ensures IndexOf(line + [NEWLINE] + more, NEWLINE) == |line|
  {
    var bytes := line + [NEWLINE] + more;
    assert bytes[|line|] == NEWLINE;
    assert forall k :: 0 <= k < |line| ==> bytes[k] == line[k];
    var at := IndexOf(bytes, NEWLINE);
    assert forall k :: 0 <= k < at ==> bytes[..at][k] == bytes[k];
  }

  /** Whether the channel becomes ready is a matter of the first line alone. */
  lemma ReadyLineDecides(parsers: Parsers, ch: Channel)
    requires ch.readiness == Waiting && !ch.closed
    ensures var next := ReadyConsumed(parsers, ch);
            if next.readiness == Ready
            then !next.closed && |ch.output| <= READY_MAX && ReadyLine(parsers, ch.output, next.output)
            else forall more :: |ch.output| <= READY_MAX ==> !ReadyLine(parsers, ch.output, more)
  {
    var next := ReadyConsumed(parsers, ch);
    if next.readiness == Ready {
      var line := ch.output[..IndexOf(ch.output, NEWLINE)];
      assert ch.output == line + [NEWLINE] + next.output;
    } else {
      forall more | |ch.output| <= READY_MAX ensures !ReadyLine(parsers, ch.output, more) {
        if ReadyLine(parsers, ch.output, more) {
          var line :| ch.output == line + [NEWLINE] + more && NEWLINE !in line && parsers.ready(line);
          assert ch.output[..|line|] == line;
          FirstNewline(line, more);
        }
      }
    }
  }

  // ------------------------------------------------------------------- what a response does

  /** The body answers this request with this payload. */
  predicate Answers(parsers: Parsers, body: seq<Byte>, id: RequestId, payload: seq<Byte>) {
    parsers.response(body) == Some(Answer(id, payload))
  }

  /** A frame at the front that answers the pending request resolves it, and what follows is read as before. */
  lemma ResponseResolves(parsers: Parsers, ch: Channel, id: RequestId, body: seq<Byte>, payload: seq<Byte>, rest: seq<Byte>)
    requires !ch.closed && ch.pending == Some(id) && Answers(parsers, body, id, payload)
    requires |body| <= BODY_MAX && ch.output == Frame(body) + rest
    ensures ResponsesConsumed(parsers, ch)
            == ResponsesConsumed(parsers, ch.(output := rest, pending := None,
                                              settled := ch.settled + [Settlement(id, Resolved(payload))]))
  {
    FrameReadsBack(body, rest);
  }

  /** The response in bytes that are one whole frame. */
  function OnlyResponse(parsers: Parsers, bytes: seq<Byte>): Option<Answer> {
    match ReadFrame(bytes)
    case Got(body, rest) => if rest == [] then parsers.response(body) else None
    case _ => None
  }

  lemma OnlyResponseResolves(parsers: Parsers, ch: Channel)
    ensures var answer := OnlyResponse(parsers, ch.output);
            !ch.closed && ch.pending.Some? && answer.Some? && answer.value.requestId == ch.pending.value ==>
              ResponsesConsumed(parsers, ch)
              == ch.(output := [], pending := None,
                     settled := ch.settled + [Settlement(ch.pending.value, Resolved(answer.value.payload))])
  {
    var reading, answer := ReadFrame(ch.output), OnlyResponse(parsers, ch.output);
    if !ch.closed && ch.pending.Some? && answer.Some? && answer.value.requestId == ch.pending.value {
      ReadingSplitsTheStream(ch.output);
      ResponseResolves(parsers, ch, ch.pending.value, reading.body, answer.value.payload, []);
    }
  }

  /** A frame that answers no pending request closes the channel, and whoever waits is rejected. */
  lemma OtherFrameCloses(parsers: Parsers, ch: Channel, body: seq<Byte>, rest: seq<Byte>)
    requires !ch.closed && ch.readiness == Ready && |body| <= BODY_MAX && ch.output == Frame(body) + rest
    requires forall id, payload :: ch.pending == Some(id) ==> !Answers(parsers, body, id, payload)
    ensures ResponsesConsumed(parsers, ch)
            == ch.(output := rest, closed := true, pending := None,
                   settled := ch.settled + if ch.pending.Some? then [Settlement(ch.pending.value, Rejected)] else [])
  {
    FrameReadsBack(body, rest);
    var answer := parsers.response(body);
    if answer.Some? && ch.pending.Some? && answer.value.requestId == ch.pending.value {
      assert Answers(parsers, body, ch.pending.value, answer.value.payload);
    }
  }

  /**
   * However its frame arrives, a response that bears the pending id resolves that request with its payload
   * and leaves the channel open; a body that does not parse or bears another id closes it and rejects the
   * request.
   */
  lemma ResponseSettles(parsers: Parsers, ch: Channel, id: RequestId, body: seq<Byte>, chunks: seq<seq<Byte>>)
    requires ch.readiness == Ready && !ch.closed && ch.output == [] && ch.pending == Some(id)
    requires |body| <= BODY_MAX && Flatten(chunks) == Frame(body)
    ensures var next, answer := Fed(parsers, ch, chunks), parsers.response(body);
            if answer.Some? && answer.value.requestId == id
            then next == ch.(pending := None, settled := ch.settled + [Settlement(id, Resolved(answer.value.payload))])
            else next.closed && next.pending.None? && next.settled == ch.settled + [Settlement(id, Rejected)]
  {
    ChunksAreOne(parsers, ch, chunks);
    var whole := ch.(output := Frame(body));
    assert ch.output + Frame(body) == Frame(body) + [];
    var answer := parsers.response(body);
    if answer.Some? && answer.value.requestId == id {
      ResponseResolves(parsers, whole, id, body, answer.value.payload, []);
    } else {
      OtherFrameCloses(parsers, whole, body, []);
    }
  }

  // ------------------------------------------------------------------- every request settles once

  function Asked(events: seq<Event>): seq<RequestId> {
    if events == [] then []
    else
      var last := events[|events| - 1];
      Asked(events[..|events| - 1]) + if last.Request? then [last.requestId] else []
  }

  function SettledIds(settled: seq<Settlement>): (ids: seq<RequestId>)
    ensures |ids| == |settled|
  {
    seq(|settled|, i requires 0 <= i < |settled| => settled[i].requestId)
  }

  function Outstanding(ch: Channel): multiset<RequestId> {
    if ch.pending.Some? then multiset{ch.pending.value} else multiset{}
  }

  function Accounted(ch: Channel): multiset<RequestId> {
    multiset(SettledIds(ch.settled)) + Outstanding(ch)
  }

  ghost predicate Sound(ch: Channel) {
    && (ch.closed ==> ch.pending.None?)
    && (ch.readiness == Failed ==> ch.closed)
    && Quiet(ch)
    && (ch.readiness == Waiting ==> ch.pending.None?)
  }

  lemma OneMoreSettled(settled: seq<Settlement>, next: Settlement)
    ensures SettledIds(settled + [next]) == SettledIds(settled) + [next.requestId]
  {
  }

  lemma ClosingAccounts(ch: Channel)
    ensures Accounted(Closed(ch)) == Accounted(ch)
  {
    if !ch.closed && ch.pending.Some? {
      OneMoreSettled(ch.settled, Settlement(ch.pending.value, Rejected));
    }
  }

  lemma HandlingAccounts(parsers: Parsers, ch: Channel, body: seq<Byte>)
    ensures Accounted(Handled(parsers, ch, body)) == Accounted(ch)
  {
    ClosingAccounts(ch);
    var answer := parsers.response(body);
    if answer.Some? && ch.pending == Some(answer.value.requestId) {
      OneMoreSettled(ch.settled, Settlement(ch.pending.value, Resolved(answer.value.payload)));
    }
  }

  lemma {:induction false} ConsumingAccounts(parsers: Parsers, ch: Channel)
    requires ch.closed ==> ch.pending.None?
    ensures var next := ResponsesConsumed(parsers, ch);
            Accounted(next) == Accounted(ch) && (next.closed ==> next.pending.None?)
    decreases |ch.output|
  {
    ClosingAccounts(ch);
    if !ch.closed && ReadFrame(ch.output).Got? {
      var Got(body, rest) := ReadFrame(ch.output);
      HandledKeepsOutput(parsers, ch.(output := rest), body);
      HandlingAccounts(parsers, ch.(output := rest), body);
      ConsumingAccounts(parsers, Handled(parsers, ch.(output := rest), body));
    }
  }

  lemma BeginningAccounts(parsers: Parsers, ch: Channel)
    requires !ch.closed && ch.readiness == Waiting && ch.pending.None?
    ensures var begun := ReadyConsumed(parsers, ch);
            && Accounted(begun) == Accounted(ch) && begun.pending.None?
            && (begun.readiness != Ready ==> Sound(begun)) && (begun.readiness == Ready ==> !begun.closed)
  {
    ClosingAccounts(ch);
  }

  lemma ReceivingAccounts(parsers: Parsers, ch: Channel, chunk: seq<Byte>)
    requires Sound(ch)
    ensures Sound(Received(parsers, ch, chunk)) && Accounted(Received(parsers, ch, chunk)) == Accounted(ch)
  {
    if !ch.closed {
      var longer := ch.(output := ch.output + chunk);
      var begun := longer;
      if ch.readiness == Waiting {
        BeginningAccounts(parsers, longer);
        begun := ReadyConsumed(parsers, longer);
      }
      if begun.readiness == Ready {
        ConsumingAccounts(parsers, begun);
        ConsumedIsQuiet(parsers, begun);
      }
    }
  }

  /** A request that is made pending is sent: the encoder never throws on it. */
  lemma RequestGoesOut(ch: Channel, payload: seq<Byte>, id: RequestId)
    ensures var next := Requested(ch, payload, id);
            if !ch.closed && ch.readiness == Ready && ch.pending.None? && |payload| <= PAYLOAD_MAX
            then next == ch.(pending := Some(id), sent := ch.sent + [Message(Kind.Request, payload, id)])
            else next == ch.(settled := ch.settled + [Settlement(id, Rejected)])
    ensures Sound(ch) ==> Sound(Requested(ch, payload, id))
                          && Accounted(Requested(ch, payload, id)) == Accounted(ch) + multiset{id}
  {
    RequestFits(Message(Kind.Request, payload, id));
    if Sound(ch) {
      RequestingAccounts(ch, payload, id);
    }
  }

  lemma RequestingAccounts(ch: Channel, payload: seq<Byte>, id: RequestId)
    requires Sound(ch)
    ensures Sound(Requested(ch, payload, id))
    ensures Accounted(Requested(ch, payload, id)) == Accounted(ch) + multiset{id}
  {
    OneMoreSettled(ch.settled, Settlement(id, Rejected));
    RequestFits(Message(Kind.Request, payload, id));
  }

  /**
   * Over every run, each request either settled exactly once or is the one still pending: nothing is
   * answered twice, forgotten, or left behind by an encoder that threw.
   */
  lemma {:induction false} EveryRequestSettlesOnce(parsers: Parsers, events: seq<Event>)
    ensures var ch := Run(parsers, OPENED, events); Sound(ch) && Accounted(ch) == multiset(Asked(events))
  {
    if events != [] {
      var before, last := events[..|events| - 1], events[|events| - 1];
      EveryRequestSettlesOnce(parsers, before);
      OneEventAccounts(parsers, Run(parsers, OPENED, before), last);
    }
  }

  lemma OneEventAccounts(parsers: Parsers, ch: Channel, event: Event)
    requires Sound(ch)
    ensures Sound(After(parsers, ch, event))
    ensures Accounted(After(parsers, ch, event)) == Accounted(ch) + if event.Request? then multiset{event.requestId} else multiset{}
  {
    match event {
      case Receive(chunk) => ReceivingAccounts(parsers, ch, chunk);
      case Request(payload, id) => RequestingAccounts(ch, payload, id);
      case Close => ClosingAccounts(ch);
    }
  }

  /** When the channel is closed, nobody is left waiting. */
  lemma ClosedLeavesNobodyWaiting(parsers: Parsers, events: seq<Event>)
    requires Run(parsers, OPENED, events).closed
    ensures multiset(SettledIds(Run(parsers, OPENED, events).settled)) == multiset(Asked(events))
  {
    EveryRequestSettlesOnce(parsers, events);
  }

  // ------------------------------------------------------------------- answers

  /** A frame with this body stands somewhere in the bytes. */
  ghost predicate HoldsFrame(bytes: seq<Byte>, body: seq<Byte>) {
    |body| <= BODY_MAX && exists i :: 0 <= i <= |bytes| && Frame(body) <= bytes[i..]
  }

  /** At most one request is resolved by a chunk: the pending one, by a frame bearing its id. */
  lemma {:induction false} AnswersBearTheirId(parsers: Parsers, ch: Channel)
    ensures var next := ResponsesConsumed(parsers, ch);
            || next.settled == ch.settled
            || (ch.pending.Some? && next.settled == ch.settled + [Settlement(ch.pending.value, Rejected)])
            || (exists body :: HoldsFrame(ch.output, body) && ch.pending.Some? && parsers.response(body).Some?
                  && parsers.response(body).value.requestId == ch.pending.value
                  && next.settled == ch.settled
                       + [Settlement(ch.pending.value, Resolved(parsers.response(body).value.payload))])
    decreases |ch.output|
  {
    if !ch.closed && ReadFrame(ch.output).Got? {
      var Got(body, rest) := ReadFrame(ch.output);
      ReadingSplitsTheStream(ch.output);
      assert Frame(body) <= ch.output[0..];
      assert HoldsFrame(ch.output, body);
      var handled := Handled(parsers, ch.(output := rest), body);
      HandledKeepsOutput(parsers, ch.(output := rest), body);
      AnswersBearTheirId(parsers, handled);
    }
  }

  /** Nothing is resolved after the channel closed, whatever still arrives or is asked. */
  lemma {:induction false} NothingResolvesAfterClose(parsers: Parsers, ch: Channel, events: seq<Event>)
    requires ch.closed
    ensures var next := Run(parsers, ch, events);
            && next.closed && next.sent == ch.sent && ch.settled <= next.settled
            && forall i :: |ch.settled| <= i < |next.settled| ==> next.settled[i].outcome == Rejected
  {
    if events != [] {
      NothingResolvesAfterClose(parsers, ch, events[..|events| - 1]);
    }
  }

  // ------------------------------------------------------------------- requests reach the guest whole

  lemma {:induction false} ConsumingSendsNothing(parsers: Parsers, ch: Channel)
    ensures ResponsesConsumed(parsers, ch).sent == ch.sent
    decreases |ch.output|
  {
    if !ch.closed && ReadFrame(ch.output).Got? {
      var Got(body, rest) := ReadFrame(ch.output);
      HandledKeepsOutput(parsers, ch.(output := rest), body);
      ConsumingSendsNothing(parsers, Handled(parsers, ch.(output := rest), body));
    }
  }

  /** Everything sent is a request whose text fits a frame and whose envelope the guest admits. */
  lemma {:induction false} SentRequestsFit(parsers: Parsers, events: seq<Event>)
    ensures forall i :: 0 <= i < |Run(parsers, OPENED, events).sent| ==>
              var message := Run(parsers, OPENED, events).sent[i];
              message.kind == Kind.Request && |message.payload| <= PAYLOAD_MAX
  {
    if events != [] {
      SentRequestsFit(parsers, events[..|events| - 1]);
      var ch, last := Run(parsers, OPENED, events[..|events| - 1]), events[|events| - 1];
      if last.Receive? && !ch.closed && ch.readiness != Failed {
        var longer := ch.(output := ch.output + last.chunk);
        ConsumingSendsNothing(parsers, if ch.readiness == Ready then longer else ReadyConsumed(parsers, longer));
      }
    }
  }

  /** What the guest reads off the pipe is the host's requests: the same texts, so the same messages, in order. */
  lemma GuestReadsTheRequests(parsers: Parsers, events: seq<Event>)
    ensures var sent := Run(parsers, OPENED, events).sent;
            && (forall i :: 0 <= i < |sent| ==>
                  |Text(sent[i])| <= BODY_MAX && ValidEnvelope(EnvelopeOf(sent[i]), false))
            && ReadFrames(Frames(Texts(sent))) == Texts(sent)
  {
    var sent := Run(parsers, OPENED, events).sent;
    SentRequestsFit(parsers, events);
    forall i | 0 <= i < |sent| ensures |Text(sent[i])| <= BODY_MAX {
      RequestFits(sent[i]);
    }
    FramesReadBack(Texts(sent));
  }
}
