/**
 * The guest's WebSocket frames to its browser: writing a masked message, reading the browser's, and what
 * sections 5.2, 5.3 and 5.5 of RFC 6455 make of either. Octets are numbers, their top bit is 128.
 */
module BrowserFrames {
  import opened Options
  import opened Bytes

  const MESSAGE_MAX: nat := 48 * 1024
  const LENGTH_LIMIT: nat := 0x8000_0000_0000_0000

  const TEXT: Byte := 0x1
  const CLOSE: Byte := 0x8
  const PING: Byte := 0x9
  const PONG: Byte := 0xA

  type Mask = m: seq<Byte> | |m| == 4 witness [0, 0, 0, 0]

  // ------------------------------------------------------------------- masking

  /** Exclusive or of the lowest `bits` bits. */
  function Xor(a: nat, b: nat, bits: nat): nat {
    if bits == 0 then 0 else (if a % 2 == b % 2 then 0 else 1) + 2 * Xor(a / 2, b / 2, bits - 1)
  }

  function Power(bits: nat): nat {
    if bits == 0 then 1 else 2 * Power(bits - 1)
  }

  lemma {:induction false} XorTwice(a: nat, b: nat, bits: nat)
    requires a < Power(bits)
    ensures Xor(Xor(a, b, bits), b, bits) == a && Xor(a, b, bits) < Power(bits)
    decreases bits
  {
    if bits > 0 {
      XorTwice(a / 2, b / 2, bits - 1);
      var x := Xor(a, b, bits);
      assert x / 2 == Xor(a / 2, b / 2, bits - 1);
      assert x % 2 == if a % 2 == b % 2 then 0 else 1;
    }
  }

  predicate Bit(n: nat, k: nat) {
    if k == 0 then n % 2 == 1 else Bit(n / 2, k - 1)
  }

  /** A bit is set where exactly one of the two numbers has it. */
  lemma {:induction false} XorBit(a: nat, b: nat, bits: nat, k: nat)
    requires k < bits
    ensures Bit(Xor(a, b, bits), k) <==> (Bit(a, k) != Bit(b, k))
    decreases k
  {
    var x := Xor(a, b, bits);
    assert x / 2 == Xor(a / 2, b / 2, bits - 1);
    assert x % 2 == if a % 2 == b % 2 then 0 else 1;
    if k > 0 {
      XorBit(a / 2, b / 2, bits - 1, k - 1);
    }
  }

  function Flip(a: Byte, b: Byte): Byte {
    assert Power(8) == 256 by { assert Power(4) == 16; }
    XorTwice(a, b, 8);
    Xor(a, b, 8)
  }

  lemma FlipTwice(a: Byte, b: Byte)
    ensures Flip(Flip(a, b), b) == a
  {
    assert Power(8) == 256 by { assert Power(4) == 16; }
    XorTwice(a, b, 8);
  }

  /** Section 5.3: octet `i` of the data with octet `i modulo 4` of the key. */
  function Masked(data: seq<Byte>, mask: Mask): (masked: seq<Byte>)
    ensures |masked| == |data|
  {
    seq(|data|, i requires 0 <= i < |data| => Flip(data[i], mask[i % 4]))
  }

  /** Section 5.3, bit by bit: octet `i` is flipped where octet `i modulo 4` of the key has a bit. */
  lemma MaskedBit(data: seq<Byte>, mask: Mask, i: nat, k: nat)
    requires i < |data| && k < 8
    ensures Bit(Masked(data, mask)[i], k) <==> (Bit(data[i], k) != Bit(mask[i % 4], k))
  {
    XorBit(data[i], mask[i % 4], 8, k);
  }

  lemma MaskedTwice(data: seq<Byte>, mask: Mask)
    ensures Masked(Masked(data, mask), mask) == data
  {
    forall i | 0 <= i < |data| ensures Masked(Masked(data, mask), mask)[i] == data[i] {
      FlipTwice(data[i], mask[i % 4]);
    }
  }

  // ------------------------------------------------------------------- section 5.2

  datatype WireFrame = WireFrame(final: bool, opcode: nat, masked: bool, payload: seq<Byte>)

  datatype Parse = Parsed(frame: WireFrame, rest: seq<Byte>) | Incomplete | Forbidden

  function Number(octets: seq<Byte>): nat {
    if octets == [] then 0 else Number(octets[..|octets| - 1]) * 256 + octets[|octets| - 1]
  }

  function ReservedBits(first: Byte): nat {
    first / 16 % 8
  }

  /** How many octets of extended length follow the length code. */
  function Extra(code: nat): nat {
    if code == 126 then 2 else if code == 127 then 8 else 0
  }

  function LengthIn(stream: seq<Byte>): nat
    requires |stream| >= 2 && |stream| >= 2 + Extra(stream[1] % 128)
  {
    var code := stream[1] % 128;
    if code < 126 then code else Number(stream[2..2 + Extra(code)])
  }

  /** The fewest octets that hold the length are the only ones allowed, and eight leave their top bit clear. */
  predicate LengthAllowed(code: nat, length: nat) {
    if code < 126 then true
    else if code == 126 then 126 <= length
    else 65536 <= length < LENGTH_LIMIT
  }

  /** One frame as the standard reads it, masked or not, whatever its opcode. */
  function ParseFrame(stream: seq<Byte>): Parse {
    if |stream| < 2 then Incomplete
    else if ReservedBits(stream[0]) != 0 then Forbidden
    else
      var start := 2 + Extra(stream[1] % 128);
      if |stream| < start then Incomplete
      else if !LengthAllowed(stream[1] % 128, LengthIn(stream)) then Forbidden
      else ParseData(stream[0], stream[1] >= 128, LengthIn(stream), stream[start..])
  }

  /** What follows the length: the key, if there is one, and the data. */
  function ParseData(first: Byte, isMasked: bool, length: nat, more: seq<Byte>): Parse {
    var start := if isMasked then 4 else 0;
    if |more| < start + length then Incomplete
    else
      var data := more[start..start + length];
      var payload := if isMasked then Masked(data, more[..start]) else data;
      Parsed(WireFrame(first >= 128, first % 16, isMasked, payload), more[start + length..])
  }

  /** The octets of a length, most significant first. */
  function Octets(n: nat, count: nat): (octets: seq<Byte>)
    ensures |octets| == count
  {
    if count == 0 then [] else Octets(n / 256, count - 1) + [n % 256]
  }

  function Capacity(count: nat): nat {
    if count == 0 then 1 else 256 * Capacity(count - 1)
  }

  lemma {:induction false} OctetsReadBack(n: nat, count: nat)
    requires n < Capacity(count)
    ensures Number(Octets(n, count)) == n
    decreases count
  {
    if count > 0 {
      OctetsReadBack(n / 256, count - 1);
      assert Octets(n, count)[..count - 1] == Octets(n / 256, count - 1);
    }
  }

  // ------------------------------------------------------------------- writing

  function Header(length: nat): (header: seq<Byte>)
    requires length < 65536
  {
    if length < 126 then [128 + length] else [254, length / 256, length % 256]
  }

  /** By the standard, whatever follows, these octets are one whole final masked frame. */
  ghost predicate Carries(written: seq<Byte>, opcode: Byte, payload: seq<Byte>) {
    forall rest :: ParseFrame(written + rest) == Parsed(WireFrame(true, opcode, true, payload), rest)
  }

  /** `writeMessage`: header and key, then the masked payload. */
  method WriteMessage(opcode: Byte, payload: seq<Byte>, mask: Mask) returns (written: Attempt<seq<Byte>>)
    requires opcode < 16
    ensures written.Done? <==> |payload| <= MESSAGE_MAX
    ensures written.Done? ==> Carries(written.value, opcode, payload)
  {
    if |payload| > MESSAGE_MAX {
      return Threw;
    }
    var header := [128 + opcode, 128];
    if |payload| < 126 {
      header := header[1 := 128 + |payload|];
    } else if |payload| <= 65535 {
      header := header[1 := 254];
      header := header + [|payload| / 256, |payload| % 256];
    } else {
      return Threw;
    }
    header := header + mask;
    var masked := new Byte[|payload|](i requires 0 <= i < |payload| => payload[i]);
    for index := 0 to |payload|
      invariant forall k :: 0 <= k < index ==> masked[k] == Flip(payload[k], mask[k % 4])
      invariant forall k :: index <= k < |payload| ==> masked[k] == payload[k]
    {
      masked[index] := Flip(masked[index], mask[index % 4]);
    }
    assert masked[..] == Masked(payload, mask);
    assert header == [128 + opcode] + Header(|payload|) + mask;
    forall rest
      ensures ParseFrame(header + masked[..] + rest) == Parsed(WireFrame(true, opcode, true, payload), rest)
    {
      WrittenParses(opcode, payload, mask, rest);
    }
    return Done(header + masked[..]);
  }

  lemma WrittenParses(opcode: Byte, payload: seq<Byte>, mask: Mask, rest: seq<Byte>)
    requires opcode < 16 && |payload| <= MESSAGE_MAX
    ensures ParseFrame([128 + opcode] + Header(|payload|) + mask + Masked(payload, mask) + rest)
            == Parsed(WireFrame(true, opcode, true, payload), rest)
  {
    var more := mask + Masked(payload, mask) + rest;
    var stream := [128 + opcode] + Header(|payload|) + more;
    HeaderReadsBack(opcode, |payload|, more);
    assert [128 + opcode] + Header(|payload|) + mask + Masked(payload, mask) + rest == stream;
    assert stream[1 + |Header(|payload|)|..] == more;
    MaskedTwice(payload, mask);
    MaskedParses(128 + opcode, mask, Masked(payload, mask), rest);
  }

  lemma MaskedParses(first: Byte, mask: Mask, data: seq<Byte>, rest: seq<Byte>)
    ensures ParseData(first, true, |data|, mask + data + rest)
            == Parsed(WireFrame(first >= 128, first % 16, true, Masked(data, mask)), rest)
  {
    var more := mask + data + rest;
    assert more[..4] == mask && more[4..4 + |data|] == data && more[4 + |data|..] == rest;
  }

  lemma HeaderReadsBack(opcode: Byte, length: nat, more: seq<Byte>)
    requires opcode < 16 && length < 65536
    ensures var stream := [128 + opcode] + Header(length) + more;
            && stream[0] == 128 + opcode && stream[1] >= 128 && 2 + Extra(stream[1] % 128) == 1 + |Header(length)|
            && LengthIn(stream) == length
  {
    var stream := [128 + opcode] + Header(length) + more;
    if length >= 126 {
      TwoOctets(length / 256, length % 256);
      assert stream[2..4] == [length / 256, length % 256];
    }
  }

  lemma TwoOctets(a: Byte, b: Byte)
    ensures Number([a, b]) == Word(0, 0, a, b)
  {
    assert [a, b][..1] == [a];
    assert [a][..0] == [];
    assert Number([a]) == a;
  }

  // ------------------------------------------------------------------- reading

  /** A frame as a server sends it: final, unmasked, its length in the fewest octets. */
  function ServerFrame(opcode: Byte, payload: seq<Byte>): seq<Byte>
    requires opcode < 16
  {
    [128 + opcode] + ServerLength(|payload|) + payload
  }

  function ServerLength(length: nat): seq<Byte> {
    if length < 126 then [length]
    else if length < 65536 then [126, length / 256, length % 256]
    else [127] + Octets(length, 8)
  }

  datatype Head = Head(opcode: nat, payload: seq<Byte>, rest: seq<Byte>) | Bad

  /** One turn of the reading loop: its code knows one and two octets of length only. */
  function ReadHead(stream: seq<Byte>): (head: Head)
    ensures head.Head? ==> |head.rest| < |stream|
  {
    if |stream| < 2 || stream[0] < 128 || stream[1] >= 128 then Bad
    else if stream[1] == 126 && |stream| < 4 then Bad
    else
      var length := if stream[1] == 126 then Word(0, 0, stream[2], stream[3]) else stream[1];
      var start := if stream[1] == 126 then 4 else 2;
      if length > MESSAGE_MAX || |stream| < start + length then Bad
      else Head(stream[0] % 16, stream[start..start + length], stream[start + length..])
  }

  datatype Received = Received(message: Attempt<seq<Byte>>, rest: seq<Byte>, pongs: seq<seq<Byte>>)

  /** `readMessage`: pings are answered until a text arrives; anything else fails. */
  function ReadMessageOf(stream: seq<Byte>): Received
    decreases |stream|
  {
    match ReadHead(stream)
    case Bad => Received(Threw, stream, [])
    case Head(opcode, payload, rest) =>
      if opcode == TEXT then Received(Done(payload), rest, [])
      else if opcode == PING then
        var later := ReadMessageOf(rest);
        later.(pongs := [payload] + later.pongs)
      else Received(Threw, rest, [])
  }

  class Connection {
    var incoming: seq<Byte>
    /** The messages written, one element each. */
    var outgoing: seq<seq<Byte>>

    method WritePong(payload: seq<Byte>) returns (reply: seq<Byte>)
      requires |payload| <= MESSAGE_MAX
      modifies this`outgoing
      ensures outgoing == old(outgoing) + [reply] && Carries(reply, PONG, payload)
    {
      var mask: Mask := *;
      var frame := WriteMessage(PONG, payload, mask);
      reply := frame.value;
      outgoing := outgoing + [reply];
    }

    /** Every ping before the message is answered with its own payload, in order. */
    method ReadMessage() returns (message: Attempt<seq<Byte>>, ghost replies: seq<seq<Byte>>)
      modifies this
      ensures var received := ReadMessageOf(old(incoming));
              && message == received.message && (message.Done? ==> incoming == received.rest)
              && |replies| == |received.pongs| && outgoing == old(outgoing) + replies
              && forall i :: 0 <= i < |replies| ==> Carries(replies[i], PONG, received.pongs[i])
    {
      ghost var pongs: seq<seq<Byte>> := [];
      replies := [];
      assert outgoing == old(outgoing) + [];
      while true
        invariant |replies| == |pongs| && outgoing == old(outgoing) + replies
        invariant forall i :: 0 <= i < |replies| ==> Carries(replies[i], PONG, pongs[i])
        invariant ReadMessageOf(old(incoming)) == Earlier(pongs, ReadMessageOf(incoming))
        decreases |incoming|
      {
        var head := ReadHead(incoming);
        if head.Bad? {
          return Threw, replies;
        }
        TurnedOnce(incoming, pongs);
        incoming := head.rest;
        if head.opcode == TEXT {
          return Done(head.payload), replies;
        }
        if head.opcode != PING {
          return Threw, replies;
        }
        var reply := WritePong(head.payload);
        pongs, replies := pongs + [head.payload], replies + [reply];
      }
    }
  }

  function Earlier(pongs: seq<seq<Byte>>, received: Received): Received {
    received.(pongs := pongs + received.pongs)
  }

  lemma TurnedOnce(stream: seq<Byte>, pongs: seq<seq<Byte>>)
    requires ReadHead(stream).Head?
    ensures var Head(opcode, payload, rest) := ReadHead(stream);
            Earlier(pongs, ReadMessageOf(stream))
            == if opcode == TEXT then Received(Done(payload), rest, pongs)
               else if opcode == PING then Earlier(pongs + [payload], ReadMessageOf(rest))
               else Received(Threw, rest, pongs)
  {
    var later := ReadMessageOf(ReadHead(stream).rest);
    assert pongs + ([ReadHead(stream).payload] + later.pongs) == pongs + [ReadHead(stream).payload] + later.pongs;
    assert pongs + [] == pongs;
  }

  /** The standard reads the payload back from such a frame at every length it allows. */
  lemma ServerFrameIsStandard(opcode: Byte, payload: seq<Byte>, rest: seq<Byte>)
    requires opcode < 16 && |payload| < LENGTH_LIMIT
    ensures ParseFrame(ServerFrame(opcode, payload) + rest) == Parsed(WireFrame(true, opcode, false, payload), rest)
  {
    var stream := ServerFrame(opcode, payload) + rest;
    var length := ServerLength(|payload|);
    var start := 1 + |length|;
    ServerLengthReadsBack(opcode, |payload|, payload + rest);
    assert stream == [128 + opcode] + length + (payload + rest);
    assert stream[start..start + |payload|] == payload && stream[start + |payload|..] == rest;
  }

  lemma ServerLengthReadsBack(opcode: Byte, length: nat, more: seq<Byte>)
    requires opcode < 16 && length < LENGTH_LIMIT
    ensures var stream := [128 + opcode] + ServerLength(length) + more;
            && stream[0] == 128 + opcode && stream[1] < 128 && 2 + Extra(stream[1] % 128) == 1 + |ServerLength(length)|
            && LengthIn(stream) == length && LengthAllowed(stream[1] % 128, length)
  {
    var stream := [128 + opcode] + ServerLength(length) + more;
    if 126 <= length < 65536 {
      TwoOctets(length / 256, length % 256);
      assert stream[2..4] == [length / 256, length % 256];
    } else if length >= 65536 {
      assert Capacity(8) == 2 * LENGTH_LIMIT by { assert Capacity(4) == 0x1_0000_0000; }
      OctetsReadBack(length, 8);
      assert stream[2..10] == Octets(length, 8);
    }
  }

  /**
   * What the loop makes of a frame a server sends: its payload up to the message limit, a refusal up to
   * 65535 octets; a longer one it misreads, for it takes code 127 for the length.
   */
  lemma ServerFrameReadsBack(opcode: Byte, payload: seq<Byte>, rest: seq<Byte>)
    requires opcode < 16
    ensures var stream := ServerFrame(opcode, payload) + rest;
            ReadHead(stream)
            == if |payload| <= MESSAGE_MAX then Head(opcode, payload, rest)
               else if |payload| < 65536 then Bad
               else Head(opcode, stream[2..129], stream[129..])
    ensures ReadHead(ServerFrame(opcode, payload) + rest) == Head(opcode, payload, rest) <==> |payload| <= MESSAGE_MAX
  {
    var stream := ServerFrame(opcode, payload) + rest;
    var start := 1 + |ServerLength(|payload|)|;
    assert stream[0] == 128 + opcode && stream[1] == ServerLength(|payload|)[0];
    assert stream[start..start + |payload|] == payload && stream[start + |payload|..] == rest;
    if 126 <= |payload| < 65536 {
      assert stream[2] == |payload| / 256 && stream[3] == |payload| % 256;
    } else if |payload| >= 65536 {
      assert stream[1] == 127;
    }
  }

  /** Frames of one kind in front of whatever follows. */
  function ServerFrames(opcode: Byte, payloads: seq<seq<Byte>>, tail: seq<Byte>): seq<Byte>
    requires opcode < 16
  {
    if payloads == [] then tail else ServerFrame(opcode, payloads[0]) + ServerFrames(opcode, payloads[1..], tail)
  }

  /** The stream starts with these pings, read one by one, and goes on with `tail`. */
  predicate Announces(stream: seq<Byte>, pings: seq<seq<Byte>>, tail: seq<Byte>)
    decreases |pings|
  {
    if pings == [] then stream == tail
    else
      match ReadHead(stream)
      case Bad => false
      case Head(opcode, payload, later) => opcode == PING && payload == pings[0] && Announces(later, pings[1..], tail)
  }

  lemma {:induction false} ServerFramesAnnounce(pings: seq<seq<Byte>>, tail: seq<Byte>)
    requires forall i :: 0 <= i < |pings| ==> |pings[i]| <= MESSAGE_MAX
    ensures Announces(ServerFrames(PING, pings, tail), pings, tail)
    decreases |pings|
  {
    if pings != [] {
      ServerFramesAnnounce(pings[1..], tail);
      ServerFrameReadsBack(PING, pings[0], ServerFrames(PING, pings[1..], tail));
    }
  }

  /** Pings in front change nothing but the answers. */
  lemma {:induction false} PingsAreAnswered(stream: seq<Byte>, pings: seq<seq<Byte>>, tail: seq<Byte>)
    requires Announces(stream, pings, tail)
    ensures ReadMessageOf(stream) == Earlier(pings, ReadMessageOf(tail))
    decreases |pings|
  {
    var last := ReadMessageOf(tail);
    if pings == [] {
      assert pings + last.pongs == last.pongs;
    } else {
      var later := ReadHead(stream).rest;
      PingsAreAnswered(later, pings[1..], tail);
      PingIsAnswered(stream, pings[0], later);
      FirstAndRest(pings, last.pongs);
    }
  }

  lemma FirstAndRest(pings: seq<seq<Byte>>, pongs: seq<seq<Byte>>)
    requires pings != []
    ensures [pings[0]] + (pings[1..] + pongs) == pings + pongs
  {
  }

  /** Pings and then a text: the text is returned, and the pings are answered one by one. */
  lemma PingsThenText(pings: seq<seq<Byte>>, text: seq<Byte>, rest: seq<Byte>)
    requires |text| <= MESSAGE_MAX && forall i :: 0 <= i < |pings| ==> |pings[i]| <= MESSAGE_MAX
    ensures ReadMessageOf(ServerFrames(PING, pings, ServerFrame(TEXT, text) + rest)) == Received(Done(text), rest, pings)
  {
    var tail := ServerFrame(TEXT, text) + rest;
    ServerFramesAnnounce(pings, tail);
    PingsAreAnswered(ServerFrames(PING, pings, tail), pings, tail);
    TextIsRead(text, rest);
    assert pings + [] == pings;
  }

  lemma TextIsRead(text: seq<Byte>, rest: seq<Byte>)
    requires |text| <= MESSAGE_MAX
    ensures ReadMessageOf(ServerFrame(TEXT, text) + rest) == Received(Done(text), rest, [])
  {
    ServerFrameReadsBack(TEXT, text, rest);
  }

  lemma PingIsAnswered(stream: seq<Byte>, ping: seq<Byte>, later: seq<Byte>)
    requires ReadHead(stream) == Head(PING, ping, later)
    ensures ReadMessageOf(stream)
            == Received(ReadMessageOf(later).message, ReadMessageOf(later).rest, [ping] + ReadMessageOf(later).pongs)
  {
  }

  /** The length is written in two octets where one would do. */
  predicate TooManyOctets(stream: seq<Byte>) {
    |stream| >= 4 && stream[1] == 126 && Word(0, 0, stream[2], stream[3]) < 126
  }

  /**
   * Where no reserved bit is set and the length code is below 127, both read the same, up to the loop's
   * limit, unless the length takes too many octets.
   */
  lemma HeadsAgree(stream: seq<Byte>)
    requires |stream| >= 2 && stream[0] / 16 == 8 && stream[1] < 127
    ensures match ParseFrame(stream)
            case Parsed(frame, rest) =>
              && frame.final && !frame.masked
              && ReadHead(stream) == if |frame.payload| <= MESSAGE_MAX then Head(frame.opcode, frame.payload, rest) else Bad
            case Incomplete => ReadHead(stream).Bad?
            case Forbidden => TooManyOctets(stream)
    ensures TooManyOctets(stream) ==> ParseFrame(stream).Forbidden?
  {
    var start := 2 + Extra(stream[1]);
    if |stream| >= start {
      if stream[1] == 126 {
        TwoOctets(stream[2], stream[3]);
        assert stream[2..4] == [stream[2], stream[3]];
      }
      CutLater(stream, start, LengthIn(stream));
    }
  }

  lemma CutLater(stream: seq<Byte>, start: nat, length: nat)
    requires start <= |stream|
    ensures |stream| >= start + length ==>
              && stream[start..][0..length] == stream[start..start + length]
              && stream[start..][length..] == stream[start + length..]
  {
  }

  /** The loop takes code 127 for the length. */
  lemma LongHeadsDiffer(stream: seq<Byte>)
    requires ParseFrame(stream).Parsed? && ReadHead(stream).Head? && stream[1] == 127
    ensures |ReadHead(stream).payload| == 127 && |ParseFrame(stream).frame.payload| >= 65536
  {
  }

  /**
   * The standard reads what the loop reads exactly if the length code is not 127, no reserved bit is
   * set and the length does not take too many octets: the loop looks at none of the three.
   */
  lemma ReadsAsTheStandard(stream: seq<Byte>)
    requires ReadHead(stream).Head?
    ensures ParseFrame(stream)
            == Parsed(WireFrame(true, ReadHead(stream).opcode, false, ReadHead(stream).payload), ReadHead(stream).rest)
            <==> stream[1] != 127 && stream[0] / 16 == 8 && !TooManyOctets(stream)
  {
    if stream[1] == 127 {
      if ParseFrame(stream).Parsed? {
        LongHeadsDiffer(stream);
      }
    } else if stream[0] / 16 == 8 {
      HeadsAgree(stream);
    } else {
      assert ReservedBits(stream[0]) != 0;
    }
  }

  /** The loop reads what the standard reads exactly for final unmasked frames within its limit. */
  lemma StandardFrameIsRead(stream: seq<Byte>)
    requires ParseFrame(stream).Parsed?
    ensures var Parsed(frame, rest) := ParseFrame(stream);
            ReadHead(stream) == Head(frame.opcode, frame.payload, rest)
            <==> frame.final && !frame.masked && |frame.payload| <= MESSAGE_MAX
  {
    if stream[0] >= 128 && stream[1] < 127 {
      assert stream[0] / 16 == 8 by { assert ReservedBits(stream[0]) == 0; }
      HeadsAgree(stream);
    } else if ReadHead(stream).Head? {
      LongHeadsDiffer(stream);
    }
  }

  /** A frame the standard reserves for extensions is taken for the text `A`. */
  lemma ReservedBitsAreRead()
    ensures ParseFrame([0xC1, 1, 65]).Forbidden?
    ensures ReadMessageOf([0xC1, 1, 65]) == Received(Done([65]), [], [])
  {
    var stream := [0xC1, 1, 65];
    assert ReadHead(stream) == Head(TEXT, [65], []);
  }

  /** So is a frame that takes two octets for the length 1. */
  lemma LongerLengthsAreRead()
    ensures ParseFrame([0x81, 126, 0, 1, 65]).Forbidden?
    ensures ReadMessageOf([0x81, 126, 0, 1, 65]) == Received(Done([65]), [], [])
  {
    var stream := [0x81, 126, 0, 1, 65];
    HeadsAgree(stream);
    assert ReadHead(stream) == Head(TEXT, [65], []);
  }

  // ------------------------------------------------------------------- section 5.5

  /** Control frames are final and carry at most 125 octets. */
  predicate ControlAllowed(frame: WireFrame) {
    frame.opcode >= 8 ==> frame.final && |frame.payload| <= 125
  }

  /** A longer ping is answered all the same, by a pong the standard does not allow either. */
  lemma LongPingsAreAnswered(ping: seq<Byte>, text: seq<Byte>, rest: seq<Byte>, reply: seq<Byte>)
    requires |ping| <= MESSAGE_MAX && |text| <= MESSAGE_MAX && Carries(reply, PONG, ping)
    ensures ReadMessageOf(ServerFrame(PING, ping) + (ServerFrame(TEXT, text) + rest)) == Received(Done(text), rest, [ping])
    ensures ParseFrame(ServerFrame(PING, ping)).Parsed? && ParseFrame(reply).Parsed?
    ensures ControlAllowed(ParseFrame(ServerFrame(PING, ping)).frame) <==> |ping| <= 125
    ensures ControlAllowed(ParseFrame(reply).frame) <==> |ping| <= 125
  {
    var tail := ServerFrame(TEXT, text) + rest;
    ServerFrameReadsBack(PING, ping, tail);
    TextIsRead(text, rest);
    PingIsAnswered(ServerFrame(PING, ping) + tail, ping, tail);
    assert [ping] + [] == [ping];
    ServerFrameIsStandard(PING, ping, []);
    assert ServerFrame(PING, ping) + [] == ServerFrame(PING, ping) && reply + [] == reply;
  }
}
