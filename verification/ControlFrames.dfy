/**
 * Frames of the guest control channel: the JSON text of an envelope, its length prefix, and the guest's
 * reader and writer of such frames.
 */
module ControlFrames {
  import opened Options
  import opened Bytes

  const FRAME_MAX: nat := 65536
  const BODY_MAX: nat := FRAME_MAX - 4
  const PAYLOAD_MAX: nat := 32768
  /** The length of a UUID's text. */
  const ID_LENGTH: nat := 36

  type RequestId = id: seq<Byte> | |id| == ID_LENGTH witness seq(ID_LENGTH, i => 48)

  datatype Kind = Request | Response

  datatype Message = Message(kind: Kind, payload: seq<Byte>, requestId: RequestId)

  // ------------------------------------------------------------------- the text of an envelope

  function Ascii(text: string): (bytes: seq<Byte>)
    ensures |bytes| == |text|
  {
    seq(|text|, i requires 0 <= i < |text| => if text[i] < 128 as char then text[i] as int else 63)
  }

  function Opening(kind: Kind): seq<Byte> {
    match kind
    case Request => Ascii("{\"kind\":\"request\",\"payload\":\"")
    case Response => Ascii("{\"kind\":\"response\",\"payload\":\"")
  }

  /** Both ends write the four fields in this order; a UUID and base64 text need no escapes. */
  function Text(message: Message): seq<Byte> {
    Opening(message.kind) + Base64(message.payload)
      + Ascii("\",\"requestId\":\"") + message.requestId + Ascii("\",\"version\":1}")
  }

  /** The whole text of a request for `foo`, as JSON writes it. */
  lemma KnownRequest(id: string)
    requires |id| == ID_LENGTH
    ensures Text(Message(Request, [102, 111, 111], Ascii(id)))
            == Ascii("{\"kind\":\"request\",\"payload\":\"" + "Zm9v" + "\",\"requestId\":\"" + id + "\",\"version\":1}")
  {
    KnownTexts();
    var opening, middle, closing := "{\"kind\":\"request\",\"payload\":\"", "\",\"requestId\":\"", "\",\"version\":1}";
    assert Ascii("Zm9v") == [90, 109, 57, 118];
    AsciiOfBoth(opening, "Zm9v");
    AsciiOfBoth(opening + "Zm9v", middle);
    AsciiOfBoth(opening + "Zm9v" + middle, id);
    AsciiOfBoth(opening + "Zm9v" + middle + id, closing);
  }

  lemma AsciiOfBoth(some: string, more: string)
    ensures Ascii(some + more) == Ascii(some) + Ascii(more)
  {
  }

  lemma TextLength(message: Message)
    ensures |Text(message)| == |Opening(message.kind)| + 65 + (|message.payload| + 2) / 3 * 4
    ensures |Opening(message.kind)| == if message.kind == Request then 29 else 30
  {
    Base64Length(message.payload);
    assert |"{\"kind\":\"request\",\"payload\":\""| == 29;
    assert |"{\"kind\":\"response\",\"payload\":\""| == 30;
    assert |"\",\"requestId\":\""| == 15;
    assert |"\",\"version\":1}"| == 14;
  }

  /** A request fits a frame exactly up to this payload, half as much again as the channel admits. */
  lemma RequestFits(message: Message)
    requires message.kind == Request
    ensures |Text(message)| <= BODY_MAX <==> |message.payload| <= 49077
    ensures |message.payload| <= PAYLOAD_MAX ==> |Text(message)| < BODY_MAX
  {
    TextLength(message);
  }

  /** Every payload the guest agrees to send fits, so its size check on the marshalled text never fires. */
  lemma ResponseFits(message: Message)
    requires message.kind == Response && |message.payload| <= PAYLOAD_MAX
    ensures |Text(message)| < BODY_MAX
  {
    TextLength(message);
  }

  lemma MessageFits(message: Message)
    requires |message.payload| <= PAYLOAD_MAX
    ensures |Text(message)| < BODY_MAX
  {
    if message.kind == Request {
      RequestFits(message);
    } else {
      ResponseFits(message);
    }
  }

  /** The text determines the message: no two messages are written alike. */
  lemma TextIsInjective(one: Message, other: Message)
    requires Text(one) == Text(other)
    ensures one == other
  {
    TextKind(one);
    TextKind(other);
    TextLength(one);
    TextLength(other);
    Base64Length(one.payload);
    Base64Length(other.payload);
    var start := |Opening(one.kind)|;
    var end := start + |Base64(one.payload)|;
    assert |Base64(one.payload)| == |Base64(other.payload)|;
    TextParts(one);
    TextParts(other);
    assert Base64(one.payload) == Base64(other.payload);
    Base64RoundTrip(one.payload);
    Base64RoundTrip(other.payload);
  }

  /** The two openings part at their twelfth character. */
  lemma TextKind(message: Message)
    ensures |Text(message)| > 11 && Text(message)[11] == if message.kind == Request then 113 else 115
  {
    assert |"{\"kind\":\"request\",\"payload\":\""| == 29 && "{\"kind\":\"request\",\"payload\":\""[11] == 'q';
    assert |"{\"kind\":\"response\",\"payload\":\""| == 30 && "{\"kind\":\"response\",\"payload\":\""[11] == 's';
    assert Text(message)[11] == Opening(message.kind)[11];
  }

  lemma TextParts(message: Message)
    ensures var text, start := Text(message), |Opening(message.kind)|;
            var end := start + |Base64(message.payload)|;
            && |text| == end + 65
            && text[start..end] == Base64(message.payload)
            && text[end + 15..end + 51] == message.requestId
  {
    assert |"\",\"requestId\":\""| == 15;
    assert |"\",\"version\":1}"| == 14;
  }

  // ------------------------------------------------------------------- frames

  function Frame(body: seq<Byte>): seq<Byte>
    requires |body| <= BODY_MAX
  {
    BigEndian(|body|) + body
  }

  datatype Reading = Got(body: seq<Byte>, rest: seq<Byte>) | Short | Oversized

  /** Reading one frame from a stream of bytes, as far as it has arrived. */
  function ReadFrame(stream: seq<Byte>): (reading: Reading)
    ensures reading.Got? ==> |reading.body| <= BODY_MAX && |reading.rest| < |stream|
  {
    if |stream| < 4 then Short
    else
      var length := ReadBigEndian(stream);
      if length > BODY_MAX then Oversized
      else if |stream| < 4 + length then Short
      else Got(stream[4..4 + length], stream[4 + length..])
  }

  /** What is read is what stands there: the frame and the rest make the stream. */
  lemma ReadingSplitsTheStream(stream: seq<Byte>)
    requires ReadFrame(stream).Got?
    ensures Frame(ReadFrame(stream).body) + ReadFrame(stream).rest == stream
  {
    PrefixIsBigEndian(stream);
    var length := ReadBigEndian(stream);
    assert stream == stream[..4] + stream[4..4 + length] + stream[4 + length..];
  }

  lemma PrefixIsBigEndian(stream: seq<Byte>)
    requires |stream| >= 4
    ensures 0 <= ReadBigEndian(stream) < WORD && BigEndian(ReadBigEndian(stream)) == stream[..4]
  {
    PartsOfWord(stream[0], stream[1], stream[2], stream[3]);
  }

  lemma FrameReadsBack(body: seq<Byte>, rest: seq<Byte>)
    requires |body| <= BODY_MAX
    ensures ReadFrame(Frame(body) + rest) == Got(body, rest)
  {
    var stream := Frame(body) + rest;
    assert stream == BigEndian(|body|) + (body + rest);
    LengthsReadBack(|body|, body + rest);
    assert stream[4..4 + |body|] == body && stream[4 + |body|..] == rest;
  }

  /** More bytes never change a frame that was complete, nor an oversized length. */
  lemma ReadingIsStable(stream: seq<Byte>, more: seq<Byte>)
    ensures ReadFrame(stream).Oversized? ==> ReadFrame(stream + more).Oversized?
    ensures ReadFrame(stream).Got? ==>
              ReadFrame(stream + more) == Got(ReadFrame(stream).body, ReadFrame(stream).rest + more)
  {
    if |stream| >= 4 {
      assert forall i :: 0 <= i < 4 ==> (stream + more)[i] == stream[i];
      assert ReadBigEndian(stream + more) == ReadBigEndian(stream);
      var reading := ReadFrame(stream);
      if reading.Got? {
        assert reading.rest == stream[4 + |reading.body|..];
        assert (stream + more)[4..4 + |reading.body|] == reading.body;
        assert (stream + more)[4 + |reading.body|..] == reading.rest + more;
      }
    }
  }

  function Frames(bodies: seq<seq<Byte>>): seq<Byte>
    requires forall i :: 0 <= i < |bodies| ==> |bodies[i]| <= BODY_MAX
  {
    if bodies == [] then [] else Frame(bodies[0]) + Frames(bodies[1..])
  }

  function Texts(messages: seq<Message>): (texts: seq<seq<Byte>>)
    ensures |texts| == |messages|
  {
    seq(|messages|, i requires 0 <= i < |messages| => Text(messages[i]))
  }

  /** The bodies a guest reads off a stream, one frame after another. */
  function ReadFrames(stream: seq<Byte>): seq<seq<Byte>>
    decreases |stream|
  {
    match ReadFrame(stream)
    case Got(body, rest) => [body] + ReadFrames(rest)
    case _ => []
  }

  lemma {:induction false} FramesReadBack(bodies: seq<seq<Byte>>)
    requires forall i :: 0 <= i < |bodies| ==> |bodies[i]| <= BODY_MAX
    ensures ReadFrames(Frames(bodies)) == bodies
  {
    if bodies != [] {
      FrameReadsBack(bodies[0], Frames(bodies[1..]));
      FramesReadBack(bodies[1..]);
    }
  }

  // ------------------------------------------------------------------- the guest's writer

  datatype Envelope =
    Envelope(kind: string, payload: seq<Byte>, requestId: seq<Byte>, sessionToken: string, version: int)

  /** `validateEnvelope`, with the syntax of a bootstrap token as a parameter. */
  predicate ValidEnvelope(envelope: Envelope, validToken: bool) {
    && envelope.version == 1 && envelope.requestId != [] && |envelope.payload| <= PAYLOAD_MAX
    && (if envelope.kind == "hello" then envelope.payload == [] && validToken
        else envelope.kind in {"request", "response", "close"} && envelope.sessionToken == "")
  }

  function EnvelopeOf(message: Message): Envelope {
    Envelope(if message.kind == Request then "request" else "response",
             message.payload, message.requestId, "", 1)
  }

  /** A stream that takes some of what it is given, and may fail at any time. */
  class Writer {
    var written: seq<Byte>
    /** How many writes failed or took nothing. */
    ghost var stalls: nat

    method Write(value: seq<Byte>) returns (count: nat, failed: bool)
      modifies this
      ensures count <= |value| && written == old(written) + value[..count]
      ensures stalls == old(stalls) + if failed || count == 0 then 1 else 0
    {
      count :| 0 <= count <= |value|;
      failed := *;
      written := written + value[..count];
      stalls := stalls + if failed || count == 0 then 1 else 0;
    }

    /** `writeAll`: short writes are continued; it fails only where a write does, leaving a prefix behind. */
    method WriteAll(value: seq<Byte>) returns (ok: bool, ghost sent: nat)
      modifies this
      ensures sent <= |value| && written == old(written) + value[..sent]
      ensures ok ==> sent == |value|
      ensures old(stalls) <= stalls && (ok <==> stalls == old(stalls))
    {
      var left := value;
      sent := 0;
      while left != []
        invariant sent <= |value| && left == value[sent..]
        invariant written == old(written) + value[..sent] && stalls == old(stalls)
        decreases |left|
      {
        var count, failed := Write(left);
        assert value[..sent] + left[..count] == value[..sent + count];
        left, sent := left[count..], sent + count;
        if failed || count == 0 {
          return false, sent;
        }
      }
      return true, sent;
    }

    /** Header and body go out one after the other: the whole frame, or a prefix of it. */
    method WriteFrame(body: seq<Byte>) returns (ok: bool, ghost sent: nat)
      requires |body| <= BODY_MAX
      modifies this
      ensures sent <= |Frame(body)| && written == old(written) + Frame(body)[..sent]
      ensures ok ==> sent == |Frame(body)|
      ensures old(stalls) <= stalls && (ok <==> stalls == old(stalls))
    {
      ok, sent := WriteAll(BigEndian(|body|));
      if ok {
        assert BigEndian(|body|)[..4] == BigEndian(|body|);
        ok, sent := WriteAll(body);
        assert BigEndian(|body|) + body[..sent] == Frame(body)[..4 + sent];
        sent := 4 + sent;
      } else {
        assert BigEndian(|body|)[..sent] == Frame(body)[..sent];
      }
    }

    /** `writeControlFrame`: an envelope the guest refuses to send leaves the stream alone. */
    method WriteControlFrame(message: Message) returns (ok: bool, ghost sent: nat)
      modifies this
      ensures |message.payload| > PAYLOAD_MAX ==> !ok && written == old(written)
      ensures |message.payload| <= PAYLOAD_MAX ==>
                && |Text(message)| <= BODY_MAX && sent <= |Frame(Text(message))|
                && written == old(written) + Frame(Text(message))[..sent]
                && (ok ==> sent == |Frame(Text(message))|)
                && (ok <==> stalls == old(stalls))
    {
      ok, sent := false, 0;
      if ValidEnvelope(EnvelopeOf(message), false) {
        assert |message.payload| <= PAYLOAD_MAX;
        MessageFits(message);
        var body := Text(message);
        if |body| <= BODY_MAX {
          ok, sent := WriteFrame(body);
        }
      } else {
        assert |message.payload| > PAYLOAD_MAX;
      }
    }
  }
}
