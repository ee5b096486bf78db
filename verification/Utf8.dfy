/** UTF-8 (RFC 3629, section 3), with undecodable bytes replaced as Python's errors="replace" does. */
module Utf8 {

  type Byte = b: int | 0 <= b < 256

  function EncodeChar(c: char): seq<Byte> {
    var x := c as int;
    if x < 0x80 then [x]
    else if x < 0x800 then [0xC0 + x / 0x40, 0x80 + x % 0x40]
    else if x < 0x1_0000 then [0xE0 + x / 0x1000, 0x80 + x / 0x40 % 0x40, 0x80 + x % 0x40]
    else [0xF0 + x / 0x4_0000, 0x80 + x / 0x1000 % 0x40, 0x80 + x / 0x40 % 0x40, 0x80 + x % 0x40]
  }

  // s.encode("utf-8")
  function Encode(s: string): seq<Byte> {
    if s == "" then [] else EncodeChar(s[0]) + Encode(s[1..])
  }

  const REPLACEMENT := '\U{FFFD}'

  // A decoded character and the number of bytes it took.
  datatype Decoded = Decoded(c: char, size: nat)

  predicate Between(b: seq<Byte>, i: nat, low: int, high: int) {
    i < |b| && low <= b[i] <= high
  }

  // The second byte has a narrower range after some lead bytes.
  function SecondLow(lead: Byte): int {
    if lead == 0xE0 then 0xA0 else if lead == 0xF0 then 0x90 else 0x80
  }

  function SecondHigh(lead: Byte): int {
    if lead == 0xED then 0x9F else if lead == 0xF4 then 0x8F else 0xBF
  }

  // The six bits of a continuation byte.
  function Bits(b: int): int {
    b - 0x80
  }

  /** The first character; a malformed sequence is replaced as far as it could have been the start of a good one. */
  function First(b: seq<Byte>): (d: Decoded)
    requires b != []
    ensures 0 < d.size <= |b|
  {
    var lead: int := b[0];
    if lead < 0x80 then Decoded(lead as char, 1)
    else if lead < 0xC2 || lead > 0xF4 || !Between(b, 1, SecondLow(lead), SecondHigh(lead)) then
      Decoded(REPLACEMENT, 1)
    else if lead < 0xE0 then Decoded(((lead - 0xC0) * 0x40 + Bits(b[1])) as char, 2)
    else if !Between(b, 2, 0x80, 0xBF) then Decoded(REPLACEMENT, 2)
    else if lead < 0xF0 then
      Decoded(((lead - 0xE0) * 0x1000 + Bits(b[1]) * 0x40 + Bits(b[2])) as char, 3)
    else if !Between(b, 3, 0x80, 0xBF) then Decoded(REPLACEMENT, 3)
    else
      Decoded(((lead - 0xF0) * 0x4_0000 + Bits(b[1]) * 0x1000 + Bits(b[2]) * 0x40 + Bits(b[3])) as char, 4)
  }

  // data.decode("utf-8", errors="replace")
  function Decode(b: seq<Byte>): string {
    if b == [] then "" else [First(b).c] + Decode(b[First(b).size..])
  }

  const NEWLINE: Byte := 0x0A

  // A newline byte ends a sequence like the end of the input does.
  lemma FirstBeforeNewline(x: seq<Byte>, y: seq<Byte>)
    requires x != []
    ensures First(x + [NEWLINE] + y) == First(x)
  {
  }

  /** Decoding falls apart at every newline byte. */
  lemma {:induction false} DecodeAtNewline(x: seq<Byte>, y: seq<Byte>)
    ensures Decode(x + [NEWLINE] + y) == Decode(x) + "\n" + Decode(y)
    decreases |x|
  {
    hide First;
    var all := x + [NEWLINE] + y;
    if x == [] {
      assert all == [NEWLINE] + y;
      FirstNewline(y);
      assert ([NEWLINE] + y)[1..] == y;
    } else {
      FirstBeforeNewline(x, y);
      var n := First(x).size;
      assert all[n..] == x[n..] + [NEWLINE] + y;
      DecodeAtNewline(x[n..], y);
    }
  }

  lemma FirstNewline(y: seq<Byte>)
    ensures First([NEWLINE] + y) == Decoded('\n', 1)
  {
  }

  lemma SixBitGroups(x: nat)
    ensures x == x / 0x40 * 0x40 + x % 0x40
    ensures x / 0x40 == x / 0x1000 * 0x40 + x / 0x40 % 0x40
    ensures x / 0x1000 == x / 0x4_0000 * 0x40 + x / 0x1000 % 0x40
  {
  }

  lemma FirstOfEncoded(c: char, rest: seq<Byte>)
    ensures First(EncodeChar(c) + rest) == Decoded(c, |EncodeChar(c)|)
  {
    var b := EncodeChar(c) + rest;
    assert forall i :: 0 <= i < |EncodeChar(c)| ==> b[i] == EncodeChar(c)[i];
    SixBitGroups(c as int);
  }

  /** Decoding undoes encoding, whatever bytes follow. */
  lemma {:induction false} DecodeEncode(s: string, rest: seq<Byte>)
    ensures Decode(Encode(s) + rest) == s + Decode(rest)
  {
    hide First, EncodeChar;
    if s == "" {
      assert Encode(s) + rest == rest;
    } else {
      var tail := Encode(s[1..]) + rest;
      var all := EncodeChar(s[0]) + tail;
      assert Encode(s) + rest == all;
      FirstOfEncoded(s[0], tail);
      assert all[|EncodeChar(s[0])|..] == tail;
      DecodeEncode(s[1..], rest);
    }
  }

  // --- malformed bytes

  /** These bytes could go on to be a character. */
  ghost predicate Starts(b: seq<Byte>) {
    exists c :: b < EncodeChar(c)
  }

  predicate MayFollow(b: seq<Byte>, n: nat)
    requires n <= |b|
  {
    && (n > 0 ==> 0xC2 <= b[0] <= 0xF4)
    && (n > 1 ==> b[0] >= 0xE0 && Between(b, 1, SecondLow(b[0]), SecondHigh(b[0])))
    && (n > 2 ==> b[0] >= 0xF0 && Between(b, 2, 0x80, 0xBF)) && n <= 3
  }

  lemma EncodedBytes(c: char)
    ensures
      var e, x := EncodeChar(c), c as int;
      && (|e| == 1 <==> x < 0x80) && (|e| == 2 <==> 0x80 <= x < 0x800) && (|e| == 3 <==> 0x800 <= x < 0x1_0000)
      && |e| <= 4 && (|e| > 1 ==> MayFollow(e, |e| - 1))
  {
  }

  lemma PrefixMayFollow(b: seq<Byte>, c: char)
    requires b < EncodeChar(c)
    ensures MayFollow(b, |b|)
  {
    hide EncodeChar;
    EncodedBytes(c);
    var e := EncodeChar(c);
    assert forall i :: 0 <= i < |b| ==> b[i] == e[i];
  }

  // The bytes of a character, by its lead byte.
  function Length(lead: Byte): nat {
    if lead < 0x80 then 1 else if lead < 0xE0 then 2 else if lead < 0xF0 then 3 else 4
  }

  predicate WellFormed(b: seq<Byte>)
    requires b != []
  {
    var n := Length(b[0]);
    && n <= |b| && (n > 1 ==> 0xC2 <= b[0] <= 0xF4 && Between(b, 1, SecondLow(b[0]), SecondHigh(b[0])))
    && (n > 2 ==> Between(b, 2, 0x80, 0xBF)) && (n > 3 ==> Between(b, 3, 0x80, 0xBF))
  }

  lemma TwoBytes(b: seq<Byte>)
    requires |b| >= 2 && Length(b[0]) == 2 && WellFormed(b)
    ensures First(b).size == 2 && EncodeChar(First(b).c) == [b[0], b[1]]
  {
  }

  lemma ThreeBytes(b: seq<Byte>)
    requires |b| >= 3 && Length(b[0]) == 3 && WellFormed(b)
    ensures First(b).size == 3 && EncodeChar(First(b).c) == [b[0], b[1], b[2]]
  {
    var x := First(b).c as int;
    assert x / 0x40 == (b[0] - 0xE0) * 0x40 + Bits(b[1]);
    assert x / 0x1000 == b[0] - 0xE0;
  }

  lemma Groups(p: nat, q: nat, r: nat, s: nat)
    requires q < 0x40 && r < 0x40 && s < 0x40
    ensures
      var x := p * 0x4_0000 + q * 0x1000 + r * 0x40 + s;
      x / 0x40 == p * 0x1000 + q * 0x40 + r && x / 0x1000 == p * 0x40 + q && x / 0x4_0000 == p
  {
  }

  lemma FourBytes(b: seq<Byte>)
    requires |b| >= 4 && Length(b[0]) == 4 && WellFormed(b)
    ensures First(b).size == 4 && EncodeChar(First(b).c) == [b[0], b[1], b[2], b[3]]
  {
    Groups(b[0] - 0xF0, Bits(b[1]), Bits(b[2]), Bits(b[3]));
  }

  // Well-formed bytes are the encoding of the character they are read as.
  lemma WellFormedEncodes(b: seq<Byte>)
    requires b != [] && WellFormed(b)
    ensures Length(b[0]) <= |b| && EncodeChar(First(b).c) == b[..Length(b[0])] && First(b).size == Length(b[0])
  {
    hide EncodeChar, First, WellFormed;
    var n := Length(b[0]);
    if n == 1 {
      OneByte(b);
    } else if n == 2 {
      WellFormedLength(b);
      TwoBytes(b);
      assert b[..2] == [b[0], b[1]];
    } else if n == 3 {
      WellFormedLength(b);
      ThreeBytes(b);
      assert b[..3] == [b[0], b[1], b[2]];
    } else {
      WellFormedLength(b);
      FourBytes(b);
      assert b[..4] == [b[0], b[1], b[2], b[3]];
    }
  }

  lemma WellFormedLength(b: seq<Byte>)
    requires b != [] && WellFormed(b)
    ensures |b| >= Length(b[0])
  {
  }

  lemma OneByte(b: seq<Byte>)
    requires b != [] && Length(b[0]) == 1
    ensures EncodeChar(First(b).c) == b[..1] && First(b).size == 1
  {
  }

  // The first character whose encoding starts like this.
  lemma StartsWith(b: seq<Byte>)
    requires b != [] && MayFollow(b, |b|)
    ensures Starts(b)
  {
    hide EncodeChar, First;
    var second, third := if |b| > 1 then b[1] else SecondLow(b[0]), if |b| > 2 then b[2] else 0x80;
    var full := if Length(b[0]) == 2 then [b[0], 0x80]
                else if Length(b[0]) == 3 then [b[0], second, 0x80] else [b[0], second, third, 0x80];
    WellFormedEncodes(full);
    assert full[..Length(b[0])] == full;
    assert b == full[..|b|];
  }

  lemma ReplacedWhere(b: seq<Byte>)
    requires b != [] && !WellFormed(b)
    ensures
      var d := First(b);
      && d.c == REPLACEMENT && (d.size > 1 ==> MayFollow(b, d.size))
      && forall n :: d.size < n <= |b| ==> !MayFollow(b, n)
  {
  }

  /** Bytes that do not start with a character are replaced as far as they could have been the start of one, and by one
      byte at least. */
  lemma FirstIsMaximal(b: seq<Byte>)
    requires b != [] && forall c :: !(EncodeChar(c) <= b)
    ensures First(b).c == REPLACEMENT
    ensures First(b).size == 1 || Starts(b[..First(b).size])
    ensures forall n :: First(b).size < n <= |b| ==> !Starts(b[..n])
  {
    hide EncodeChar, First, WellFormed, MayFollow;
    if WellFormed(b) {
      WellFormedEncodes(b);
    }
    ReplacedWhere(b);
    var k := First(b).size;
    if k > 1 {
      MayFollowPrefix(b, k);
      StartsWith(b[..k]);
    }
    forall n | k < n <= |b| ensures !Starts(b[..n]) {
      if c :| b[..n] < EncodeChar(c) {
        PrefixMayFollow(b[..n], c);
        MayFollowPrefix(b, n);
      }
    }
  }

  lemma MayFollowPrefix(b: seq<Byte>, n: nat)
    requires n <= |b|
    ensures MayFollow(b[..n], n) <==> MayFollow(b, n)
  {
  }
}
