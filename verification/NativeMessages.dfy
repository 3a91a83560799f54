/**
 * Chrome native messages: JSON texts behind a little-endian length, at most 256 KiB, and the host loop
 * that decodes them from a pipe chunk by chunk. A message is its JSON text; which texts are JSON is a
 * parameter.
 */
module NativeMessages {
  import opened Options
  import opened Bytes

  const MAX_BODY: nat := 256 * 1024

  type Text = seq<Byte>

  predicate Encodable(text: Text) {
    0 < |text| <= MAX_BODY
  }

  function Encoded(text: Text): (frame: seq<Byte>)
    requires Encodable(text)
  {
    LittleEndian(|text|) + text
  }

  datatype Reading = Got(text: Text, rest: seq<Byte>) | Partial | Malformed

  /** What stands at the front of the bytes, before the text is parsed. */
  function First(input: seq<Byte>): (reading: Reading)
    ensures reading.Got? ==> |reading.rest| < |input|
  {
    if |input| < 4 then Partial
    else
      var size := ReadLittleEndian(input);
      if size == 0 || size > MAX_BODY then Malformed
      else if |input| < 4 + size then Partial
      else Got(input[4..4 + size], input[4 + size..])
  }

  datatype Decoding = Decoding(frames: seq<Text>, remainder: seq<Byte>)

  function Joined(frames: seq<Text>, later: Attempt<Decoding>): Attempt<Decoding> {
    match later
    case Threw => Threw
    case Done(d) => Done(Decoding(frames + d.frames, d.remainder))
  }

  /** The messages at the front of the bytes, without the closing length check of `decodeChromeNativeMessages`. */
  function Decoded(json: Text -> bool, input: seq<Byte>): Attempt<Decoding>
    decreases |input|
  {
    match First(input)
    case Partial => Done(Decoding([], input))
    case Malformed => Threw
    case Got(text, rest) => if json(text) then Joined([text], Decoded(json, rest)) else Threw
  }

  method Encode(text: Text) returns (r: Attempt<seq<Byte>>)
    ensures r == if Encodable(text) then Done(Encoded(text)) else Threw
  {
    if |text| == 0 || |text| > MAX_BODY {
      return Threw;
    }
    var frame := new Byte[4 + |text|](i => 0);
    var size := LittleEndian(|text|);
    frame[0], frame[1], frame[2], frame[3] := size[0], size[1], size[2], size[3];
    var at := 0;
    while at < |text|
      invariant 0 <= at <= |text| && frame[..4] == size && frame[4..4 + at] == text[..at]
    {
      frame[4 + at] := text[at];
      at := at + 1;
    }
    assert text[..at] == text;
    assert frame[..] == frame[..4] + frame[4..4 + at] == Encoded(text);
    return Done(frame[..]);
  }

  /** The loop of `decodeChromeNativeMessages` with its closing length check, which therefore never fires. */
  method Decode(json: Text -> bool, input: seq<Byte>) returns (r: Attempt<Decoding>)
    ensures r == Decoded(json, input)
    ensures r.Done? ==> |r.value.remainder| < MAX_BODY + 4
  {
    var frames, offset := [], 0;
    var going := true;
    JoinedNothing(Decoded(json, input));
    assert input[0..] == input;
    while going && offset + 4 <= |input|
      invariant offset <= |input|
      invariant Decoded(json, input) == Joined(frames, Decoded(json, input[offset..]))
      invariant !going ==> First(input[offset..]) == Partial && |input| - offset < MAX_BODY + 4
      decreases if going then |input| - offset + 1 else 0
    {
      ghost var rest := input[offset..];
      SizeAt(input, offset);
      var size := ReadLittleEndian(input[offset..offset + 4]);
      if size == 0 || size > MAX_BODY {
        return Threw;
      }
      var end := offset + 4 + size;
      if end > |input| {
        going := false;
      } else {
        var text := input[offset + 4..end];
        assert First(rest) == Got(text, input[end..]) by {
          assert rest[4..4 + size] == text && rest[4 + size..] == input[end..];
        }
        if !json(text) {
          return Threw;
        }
        JoinedTwice(frames, [text], Decoded(json, input[end..]));
        frames := frames + [text];
        offset := end;
      }
    }
    if |input| - offset > MAX_BODY + 4 {
      return Threw;
    }
    r := Done(Decoding(frames, input[offset..]));
    assert frames + [] == frames;
  }

  lemma SizeAt(input: seq<Byte>, offset: nat)
    requires offset + 4 <= |input|
    ensures ReadLittleEndian(input[offset..offset + 4]) == ReadLittleEndian(input[offset..])
    ensures ReadLittleEndian(input[offset..]) >= 0
  {
  }

  lemma JoinedNothing(later: Attempt<Decoding>)
    ensures Joined([], later) == later
  {
    if later.Done? {
      assert [] + later.value.frames == later.value.frames;
    }
  }

  lemma JoinedTwice(some: seq<Text>, more: seq<Text>, later: Attempt<Decoding>)
    ensures Joined(some, Joined(more, later)) == Joined(some + more, later)
  {
    if later.Done? {
      assert some + (more + later.value.frames) == some + more + later.value.frames;
    }
  }

  // ------------------------------------------------------------------- one frame

  lemma FirstIsStable(input: seq<Byte>, more: seq<Byte>)
    ensures First(input).Malformed? ==> First(input + more).Malformed?
    ensures First(input).Got? ==> First(input + more) == Got(First(input).text, First(input).rest + more)
  {
    if |input| >= 4 {
      assert ReadLittleEndian(input + more) == ReadLittleEndian(input);
      var size := ReadLittleEndian(input);
      if First(input).Got? {
        assert (input + more)[4..4 + size] == input[4..4 + size];
        assert (input + more)[4 + size..] == input[4 + size..] + more;
      }
    }
  }

  lemma FirstReadsBack(text: Text, rest: seq<Byte>)
    requires Encodable(text)
    ensures First(Encoded(text) + rest) == Got(text, rest)
  {
    var input := Encoded(text) + rest;
    assert input == LittleEndian(|text|) + (text + rest);
    LengthsReadBack(|text|, text + rest);
    assert input[4..4 + |text|] == text && input[4 + |text|..] == rest;
  }

  // ------------------------------------------------------------------- chunks

  /** Bytes that come later change neither a verdict nor a message already read. */
  lemma {:induction false} DecodingInTwo(json: Text -> bool, input: seq<Byte>, more: seq<Byte>)
    ensures Decoded(json, input).Threw? ==> Decoded(json, input + more).Threw?
    ensures Decoded(json, input).Done? ==>
              var first := Decoded(json, input).value;
              Decoded(json, input + more) == Joined(first.frames, Decoded(json, first.remainder + more))
    decreases |input|
  {
    FirstIsStable(input, more);
    match First(input) {
      case Malformed =>
      case Partial => JoinedNothing(Decoded(json, input + more));
      case Got(text, rest) =>
        DecodingInTwo(json, rest, more);
        if json(text) && Decoded(json, rest).Done? {
          var later := Decoded(json, rest).value;
          JoinedTwice([text], later.frames, Decoded(json, later.remainder + more));
        }
    }
  }

  datatype Host = Host(buffered: seq<Byte>, handled: seq<Text>, failed: bool)

  const STARTED := Host([], [], false)

  function HostAfter(json: Text -> bool, host: Host, chunk: seq<Byte>): Host {
    if host.failed then host
    else
      match Decoded(json, host.buffered + chunk)
      case Threw => host.(failed := true)
      case Done(d) => Host(d.remainder, host.handled + d.frames, false)
  }

  function HostAfterAll(json: Text -> bool, host: Host, chunks: seq<seq<Byte>>): Host
    decreases |chunks|
  {
    if chunks == [] then host else HostAfterAll(json, HostAfter(json, host, chunks[0]), chunks[1..])
  }

  /** The host's read loop: decode what is buffered, handle it, keep the remainder. */
  method Listen(json: Text -> bool, chunks: seq<seq<Byte>>) returns (host: Host)
    ensures host == HostAfterAll(json, STARTED, chunks)
  {
    host := STARTED;
    var i := 0;
    assert chunks[0..] == chunks;
    while i < |chunks|
      invariant 0 <= i <= |chunks| && !host.failed
      invariant HostAfterAll(json, STARTED, chunks) == HostAfterAll(json, host, chunks[i..])
    {
      assert chunks[i..][1..] == chunks[i + 1..];
      var decoded := Decode(json, host.buffered + chunks[i]);
      if decoded.Threw? {
        host := host.(failed := true);
        FailureStays(json, host, chunks[i + 1..]);
        return;
      }
      host := Host(decoded.value.remainder, host.handled + decoded.value.frames, false);
      i := i + 1;
    }
  }

  lemma {:induction false} FailureStays(json: Text -> bool, host: Host, chunks: seq<seq<Byte>>)
    requires host.failed
    ensures HostAfterAll(json, host, chunks) == host
    decreases |chunks|
  {
    if chunks != [] {
      FailureStays(json, host, chunks[1..]);
    }
  }

  /** What a stream brings a host that has `host.buffered` in hand. */
  function Expected(json: Text -> bool, host: Host, stream: seq<Byte>): Attempt<Host> {
    Gained(host.handled, Decoded(json, host.buffered + stream))
  }

  function Gained(handled: seq<Text>, decoded: Attempt<Decoding>): Attempt<Host> {
    match decoded
    case Threw => Threw
    case Done(d) => Done(Host(d.remainder, handled + d.frames, false))
  }

  lemma GainedInTwo(handled: seq<Text>, frames: seq<Text>, later: Attempt<Decoding>)
    ensures Gained(handled, Joined(frames, later)) == Gained(handled + frames, later)
  {
    if later.Done? {
      assert handled + frames + later.value.frames == handled + (frames + later.value.frames);
    }
  }

  /**
   * In any chunking the host gets through the stream exactly when the whole stream decodes, and has then
   * handled exactly its messages and kept exactly its remainder.
   */
  lemma {:induction false} ChunksDoNotMatter(json: Text -> bool, host: Host, chunks: seq<seq<Byte>>)
    requires !host.failed && First(host.buffered).Partial?
    ensures var end := HostAfterAll(json, host, chunks);
            match Expected(json, host, Flatten(chunks))
            case Threw => end.failed
            case Done(expected) => end == expected
    decreases |chunks|
  {
    if chunks == [] {
      assert host.buffered + [] == host.buffered && host.handled + [] == host.handled;
    } else {
      var chunk, rest := chunks[0], Flatten(chunks[1..]);
      var next := HostAfter(json, host, chunk);
      if next.failed {
        DecodingInTwo(json, host.buffered + chunk, rest);
        assert host.buffered + (chunk + rest) == host.buffered + chunk + rest;
        FailureStays(json, next, chunks[1..]);
      } else {
        RemainderIsPartial(json, host.buffered + chunk);
        ChunksDoNotMatter(json, next, chunks[1..]);
        ExpectedInTwo(json, host, chunk, rest);
      }
    }
  }

  lemma ExpectedInTwo(json: Text -> bool, host: Host, chunk: seq<Byte>, rest: seq<Byte>)
    requires !host.failed && !HostAfter(json, host, chunk).failed
    ensures Expected(json, host, chunk + rest) == Expected(json, HostAfter(json, host, chunk), rest)
  {
    var front := host.buffered + chunk;
    assert host.buffered + (chunk + rest) == front + rest;
    DecodingInTwo(json, front, rest);
    var first := Decoded(json, front).value;
    GainedInTwo(host.handled, first.frames, Decoded(json, first.remainder + rest));
  }

  lemma {:induction false} RemainderIsPartial(json: Text -> bool, input: seq<Byte>)
    requires Decoded(json, input).Done?
    ensures First(Decoded(json, input).value.remainder).Partial?
    decreases |input|
  {
    if First(input).Got? {
      RemainderIsPartial(json, First(input).rest);
    }
  }

  function Stream(texts: seq<Text>): seq<Byte>
    requires forall t :: t in texts ==> Encodable(t)
  {
    if texts == [] then [] else Encoded(texts[0]) + Stream(texts[1..])
  }

  /** Encoded messages followed by part of another decode to those messages and that part. */
  lemma {:induction false} StreamDecodes(json: Text -> bool, texts: seq<Text>, part: seq<Byte>)
    requires forall t :: t in texts ==> Encodable(t) && json(t)
    requires First(part).Partial?
    ensures Decoded(json, Stream(texts) + part) == Done(Decoding(texts, part))
  {
    if texts == [] {
      assert [] + part == part;
    } else {
      var later := Stream(texts[1..]) + part;
      assert Stream(texts) + part == Encoded(texts[0]) + later;
      FirstReadsBack(texts[0], later);
      StreamDecodes(json, texts[1..], part);
      assert texts == [texts[0]] + texts[1..];
    }
  }

  /** The round trip: whatever chunks the encoded messages arrive in, the host handles those messages. */
  lemma MessagesArrive(json: Text -> bool, texts: seq<Text>, chunks: seq<seq<Byte>>)
    requires forall t :: t in texts ==> Encodable(t) && json(t)
    requires Flatten(chunks) == Stream(texts)
    ensures HostAfterAll(json, STARTED, chunks) == Host([], texts, false)
  {
    var stream := Stream(texts);
    assert stream + [] == stream && [] + stream == stream && [] + texts == texts;
    StreamDecodes(json, texts, []);
    ChunksDoNotMatter(json, STARTED, chunks);
  }

  /**
   * A malformed message costs the messages that arrived in the same chunk: what was handled before the
   * failure does depend on the chunking, even though the failure does not.
   */
  lemma MalformedTakesItsChunkAlong(json: Text -> bool, text: Text, bad: seq<Byte>)
    requires Encodable(text) && json(text) && First(bad).Malformed?
    ensures HostAfter(json, STARTED, Encoded(text) + bad) == Host([], [], true)
    ensures HostAfter(json, HostAfter(json, STARTED, Encoded(text)), bad) == Host([], [text], true)
  {
    MalformedThrows(json, text, bad);
    assert [] + (Encoded(text) + bad) == Encoded(text) + bad;
    HandlesOne(json, text);
    assert [] + bad == bad;
  }

  lemma MalformedThrows(json: Text -> bool, text: Text, bad: seq<Byte>)
    requires Encodable(text) && json(text) && First(bad).Malformed?
    ensures Decoded(json, bad) == Threw && Decoded(json, Encoded(text) + bad) == Threw
  {
    DecodesOne(json, text, bad);
  }

  lemma HandlesOne(json: Text -> bool, text: Text)
    requires Encodable(text) && json(text)
    ensures HostAfter(json, STARTED, Encoded(text)) == Host([], [text], false)
  {
    DecodesOne(json, text, []);
    assert [] + Encoded(text) == Encoded(text) + [] && [text] + [] == [text] && [] + [text] == [text];
  }

  lemma DecodesOne(json: Text -> bool, text: Text, rest: seq<Byte>)
    requires Encodable(text) && json(text)
    ensures Decoded(json, Encoded(text) + rest) == Joined([text], Decoded(json, rest))
  {
    FirstReadsBack(text, rest);
  }

  /** A zero length, for one, is malformed. */
  lemma ZeroLengthIsMalformed(rest: seq<Byte>)
    ensures First([0, 0, 0, 0] + rest).Malformed?
  {
    var input := [0, 0, 0, 0] + rest;
    assert input[0] == 0 && input[1] == 0 && input[2] == 0 && input[3] == 0;
  }
}
