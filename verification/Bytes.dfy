/**
 * Bytes, the two 32-bit length prefixes the framings use, and base64 text.
 */
module Bytes {
  import opened Options

  type Byte = b: int | 0 <= b < 256

  const WORD: nat := 0x1_0000_0000

  function Word(a: int, b: int, c: int, d: int): int {
    ((a * 256 + b) * 256 + c) * 256 + d
  }

  function BigEndian(n: nat): (bytes: seq<Byte>)
    requires n < WORD
    ensures |bytes| == 4
  {
    [n / 256 / 256 / 256, n / 256 / 256 % 256, n / 256 % 256, n % 256]
  }

  function ReadBigEndian(bytes: seq<Byte>): nat
    requires |bytes| >= 4
  {
    Word(bytes[0], bytes[1], bytes[2], bytes[3])
  }

  function LittleEndian(n: nat): (bytes: seq<Byte>)
    requires n < WORD
    ensures |bytes| == 4
  {
    [n % 256, n / 256 % 256, n / 256 / 256 % 256, n / 256 / 256 / 256]
  }

  function ReadLittleEndian(bytes: seq<Byte>): nat
    requires |bytes| >= 4
  {
    Word(bytes[3], bytes[2], bytes[1], bytes[0])
  }

  lemma LengthsReadBack(n: nat, rest: seq<Byte>)
    requires n < WORD
    ensures ReadBigEndian(BigEndian(n) + rest) == n
    ensures ReadLittleEndian(LittleEndian(n) + rest) == n
  {
    WordOfParts(n);
    var big, little := BigEndian(n), LittleEndian(n);
    assert forall i :: 0 <= i < 4 ==> (big + rest)[i] == big[i] && (little + rest)[i] == little[i];
  }

  /** Which octet comes first: the most significant one, or the least. */
  lemma OctetsInOrder(n: nat)
    requires n < WORD
    ensures var octets: seq<int> := BigEndian(n); n == octets[0] * 0x100_0000 + octets[1] * 0x1_0000 + octets[2] * 0x100 + octets[3]
    ensures var octets: seq<int> := LittleEndian(n); n == octets[0] + octets[1] * 0x100 + octets[2] * 0x1_0000 + octets[3] * 0x100_0000
  {
    WordOfParts(n);
  }

  lemma WordOfParts(n: nat)
    requires n < WORD
    ensures Word(n / 256 / 256 / 256, n / 256 / 256 % 256, n / 256 % 256, n % 256) == n
  {
  }

  lemma PartsOfWord(a: Byte, b: Byte, c: Byte, d: Byte)
    ensures var n := Word(a, b, c, d);
            && 0 <= n < WORD
            && n / 256 / 256 / 256 == a && n / 256 / 256 % 256 == b && n / 256 % 256 == c && n % 256 == d
  {
    LastPart(Word(0, a, b, c), d);
    LastPart(Word(0, 0, a, b), c);
    LastPart(a, b);
  }

  lemma LastPart(front: nat, last: Byte)
    ensures (front * 256 + last) / 256 == front && (front * 256 + last) % 256 == last
  {
  }

  function Flatten(chunks: seq<seq<Byte>>): seq<Byte> {
    if chunks == [] then [] else chunks[0] + Flatten(chunks[1..])
  }

  // ------------------------------------------------------------------- base64

  const PAD: Byte := 61

  type Sextet = d: int | 0 <= d < 64

  function Letter(d: Sextet): Byte {
    if d < 26 then 65 + d else if d < 52 then 71 + d else if d < 62 then d - 4 else if d == 62 then 43 else 47
  }

  function Digit(letter: Byte): Option<Sextet> {
    if 65 <= letter < 91 then Some(letter - 65)
    else if 97 <= letter < 123 then Some(letter - 71)
    else if 48 <= letter < 58 then Some(letter + 4)
    else if letter == 43 then Some(62)
    else if letter == 47 then Some(63)
    else None
  }

  function Base64(data: seq<Byte>): seq<Byte> {
    if |data| == 0 then []
    else if |data| == 1 then [Letter(data[0] / 4), Letter(data[0] % 4 * 16), PAD, PAD]
    else if |data| == 2 then
      [Letter(data[0] / 4), Letter(data[0] % 4 * 16 + data[1] / 16), Letter(data[1] % 16 * 4), PAD]
    else Group(data[0], data[1], data[2]) + Base64(data[3..])
  }

  function Group(a: Byte, b: Byte, c: Byte): seq<Byte> {
    [Letter(a / 4), Letter(a % 4 * 16 + b / 16), Letter(b % 16 * 4 + c / 64), Letter(c % 64)]
  }

  function First(a: int, b: int): Byte
    requires 0 <= a < 64 && 0 <= b < 64
  {
    a * 4 + b / 16
  }

  function Second(b: int, c: int): Byte
    requires 0 <= b < 64 && 0 <= c < 64
  {
    b % 16 * 16 + c / 4
  }

  function Third(c: int, d: int): Byte
    requires 0 <= c < 64 && 0 <= d < 64
  {
    c % 4 * 64 + d
  }

  /** Text of whole groups, padded only in the last one; anything else is not base64. */
  function Unbase64(text: seq<Byte>): Option<seq<Byte>> {
    if text == [] then Some([])
    else if |text| < 4 then None
    else
      match (Digit(text[0]), Digit(text[1]), Digit(text[2]), Digit(text[3]), Unbase64(text[4..]))
      case (Some(a), Some(b), Some(c), Some(d), Some(rest)) =>
        Some([First(a, b), Second(b, c), Third(c, d)] + rest)
      case (Some(a), Some(b), Some(c), None, _) =>
        if text[3..] == [PAD] then Some([First(a, b), Second(b, c)]) else None
      case (Some(a), Some(b), None, None, _) =>
        if text[2..] == [PAD, PAD] then Some([First(a, b)]) else None
      case _ => None
  }

  lemma {:induction false} Base64RoundTrip(data: seq<Byte>)
    ensures Unbase64(Base64(data)) == Some(data)
  {
    if |data| >= 3 {
      Base64RoundTrip(data[3..]);
      GroupReadsBack(data[0], data[1], data[2], Base64(data[3..]));
      assert data == [data[0], data[1], data[2]] + data[3..];
    } else if |data| == 2 {
      PairReadsBack(data[0], data[1]);
      assert data == [data[0], data[1]];
    } else if |data| == 1 {
      OneReadsBack(data[0]);
      assert data == [data[0]];
    }
  }

  lemma {:induction false} Base64Length(data: seq<Byte>)
    ensures |Base64(data)| == (|data| + 2) / 3 * 4
  {
    if |data| >= 3 {
      var rest := data[3..];
      Base64Length(rest);
      OneGroupMore(|rest|);
      assert |Base64(data)| == 4 + |Base64(rest)|;
    }
  }

  lemma OneGroupMore(n: nat)
    ensures (n + 5) / 3 * 4 == (n + 2) / 3 * 4 + 4
  {
  }

  /** The alphabet of section 4 of RFC 4648. */
  lemma LettersInOrder(d: Sextet)
    ensures d < 26 ==> Letter(d) as char == 'A' + d as char
    ensures 26 <= d < 52 ==> Letter(d) as char == 'a' + (d - 26) as char
    ensures 52 <= d < 62 ==> Letter(d) as char == '0' + (d - 52) as char
    ensures Letter(62) as char == '+' && Letter(63) as char == '/' && PAD as char == '='
  {
  }

  /** Section 10 of RFC 4648: `f`, `fo`, `foo` and `foobar`. */
  lemma KnownTexts()
    ensures Base64([102]) == [90, 103, 61, 61]
    ensures Base64([102, 111]) == [90, 109, 56, 61]
    ensures Base64([102, 111, 111]) == [90, 109, 57, 118]
    ensures Base64([102, 111, 111, 98, 97, 114]) == [90, 109, 57, 118, 89, 109, 70, 121]
  {
    assert [102, 111, 111][3..] == [];
    assert [102, 111, 111, 98, 97, 114][3..] == [98, 97, 114];
    assert [98, 97, 114][3..] == [];
  }

  lemma OneReadsBack(a: Byte)
    ensures Unbase64(Base64([a])) == Some([a])
  {
    LetterReadsBack(a / 4);
    LetterReadsBack(a % 4 * 16);
    assert Base64([a])[2..] == [PAD, PAD];
  }

  lemma GroupReadsBack(a: Byte, b: Byte, c: Byte, more: seq<Byte>)
    requires Unbase64(more).Some?
    ensures Unbase64(Group(a, b, c) + more) == Some([a, b, c] + Unbase64(more).value)
  {
    FourReadBack(a / 4, a % 4 * 16 + b / 16, b % 16 * 4 + c / 64, c % 64, more);
    BitsReadBack(a, b, c);
  }

  lemma FourReadBack(p: Sextet, q: Sextet, r: Sextet, s: Sextet, more: seq<Byte>)
    requires Unbase64(more).Some?
    ensures Unbase64([Letter(p), Letter(q), Letter(r), Letter(s)] + more)
            == Some([First(p, q), Second(q, r), Third(r, s)] + Unbase64(more).value)
  {
    var text := [Letter(p), Letter(q), Letter(r), Letter(s)] + more;
    assert text[4..] == more;
    LetterReadsBack(p);
    LetterReadsBack(q);
    LetterReadsBack(r);
    LetterReadsBack(s);
  }

  lemma PairReadsBack(a: Byte, b: Byte)
    ensures Unbase64(Base64([a, b])) == Some([a, b])
  {
    LetterReadsBack(a / 4);
    LetterReadsBack(a % 4 * 16 + b / 16);
    LetterReadsBack(b % 16 * 4);
    BitsReadBack(a, b, 0);
    assert Base64([a, b])[3..] == [PAD];
  }

  lemma BitsReadBack(a: Byte, b: Byte, c: Byte)
    ensures First(a / 4, a % 4 * 16 + b / 16) == a
    ensures Second(a % 4 * 16 + b / 16, b % 16 * 4 + c / 64) == b
    ensures Third(b % 16 * 4 + c / 64, c % 64) == c
  {
  }

  lemma LetterReadsBack(d: Sextet)
    ensures Digit(Letter(d)) == Some(d)
  {
  }
}
