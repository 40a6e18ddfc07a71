/**
 * Standard base64 (section 4 of RFC 4648), the encoding that Foundation's
 * `Data(base64Encoded:)` accepts: the 64-character alphabet `A-Z a-z 0-9 + /`,
 * input in quanta of four characters, and `=` padding in the last quantum only.
 */
module Base64 {
  import opened Basics

  /** The pad character of section 4 of RFC 4648. */
  const Pad: char := '='

  predicate IsAlphabetChar(c: char) {
    ('A' <= c <= 'Z') || ('a' <= c <= 'z') || ('0' <= c <= '9') || c == '+' || c == '/'
  }

  /** The 6-bit value a character of the alphabet stands for. */
  function CharToSextet(c: char): (v: int)
    requires IsAlphabetChar(c)
    ensures 0 <= v < 64
  {
    if 'A' <= c <= 'Z' then c as int - 'A' as int
    else if 'a' <= c <= 'z' then c as int - 'a' as int + 26
    else if '0' <= c <= '9' then c as int - '0' as int + 52
    else if c == '+' then 62
    else 63
  }

  /** The character of the alphabet for a 6-bit value: the inverse of CharToSextet. */
  function SextetToChar(v: int): (c: char)
    requires 0 <= v < 64
    ensures IsAlphabetChar(c) && CharToSextet(c) == v
  {
    if v < 26 then ('A' as int + v) as char
    else if v < 52 then ('a' as int + v - 26) as char
    else if v < 62 then ('0' as int + v - 52) as char
    else if v == 62 then '+'
    else '/'
  }

  // ---------------------------------------------------------------------------
  // Decoding

  /** A quantum of four alphabet characters: three bytes. */
  function DecodeFull(c0: char, c1: char, c2: char, c3: char): Option<seq<byte>> {
    if IsAlphabetChar(c0) && IsAlphabetChar(c1) && IsAlphabetChar(c2) && IsAlphabetChar(c3) then
      var v0, v1, v2, v3 := CharToSextet(c0), CharToSextet(c1), CharToSextet(c2), CharToSextet(c3);
      Some([v0 * 4 + v1 / 16, (v1 % 16) * 16 + v2 / 4, (v2 % 4) * 64 + v3])
    else None
  }

  /**
   * The last quantum of the input: four alphabet characters (three bytes),
   * three and one pad (two bytes) or two and two pads (one byte).
   * The bits that padding leaves over are discarded.
   */
  function DecodeFinal(q: seq<char>): Option<seq<byte>>
    requires |q| == 4
  {
    if q[2] == Pad && q[3] == Pad then
      if IsAlphabetChar(q[0]) && IsAlphabetChar(q[1]) then
        Some([CharToSextet(q[0]) * 4 + CharToSextet(q[1]) / 16])
      else None
    else if q[3] == Pad then
      if IsAlphabetChar(q[0]) && IsAlphabetChar(q[1]) && IsAlphabetChar(q[2]) then
        var v0, v1, v2 := CharToSextet(q[0]), CharToSextet(q[1]), CharToSextet(q[2]);
        Some([v0 * 4 + v1 / 16, (v1 % 16) * 16 + v2 / 4])
      else None
    else DecodeFull(q[0], q[1], q[2], q[3])
  }

  /**
   * Decodes a base64 string, or yields None when the string is not valid
   * base64: a length that is not a multiple of four, a character outside the
   * alphabet, or padding anywhere but at the end of the last quantum.
   */
  function Decode(s: string): (r: Option<seq<byte>>)
    ensures r.Some? ==> forall i | 0 <= i < |s| :: IsAlphabetChar(s[i]) || s[i] == Pad
    ensures r.Some? ==> forall i | 0 <= i < |s| - 2 :: s[i] != Pad
    decreases |s|
  {
    if |s| == 0 then Some([])
    else if |s| < 4 then None
    else if |s| == 4 then DecodeFinal(s)
    else
      match DecodeFull(s[0], s[1], s[2], s[3])
      case None => None
      case Some(head) =>
        match Decode(s[4..])
        case None => None
        case Some(tail) => Some(head + tail)
  }

  /** Number of pad characters at the end of a string (at most two are counted). */
  function PadCount(s: string): nat {
    if |s| >= 2 && s[|s| - 1] == Pad && s[|s| - 2] == Pad then 2
    else if |s| >= 1 && s[|s| - 1] == Pad then 1
    else 0
  }

  // ---------------------------------------------------------------------------
  // Encoding: the reference the decoder is checked against

  function EncodeFull(b0: byte, b1: byte, b2: byte): (q: seq<char>)
    ensures |q| == 4
  {
    [SextetToChar(b0 / 4), SextetToChar((b0 % 4) * 16 + b1 / 16),
     SextetToChar((b1 % 16) * 4 + b2 / 64), SextetToChar(b2 % 64)]
  }

  /** Encodes bytes as base64 with padding. */
  function Encode(b: seq<byte>): (s: string)
    ensures |s| == 4 * ((|b| + 2) / 3)
    decreases |b|
  {
    if |b| == 0 then []
    else if |b| == 1 then [SextetToChar(b[0] / 4), SextetToChar((b[0] % 4) * 16), Pad, Pad]
    else if |b| == 2 then
      [SextetToChar(b[0] / 4), SextetToChar((b[0] % 4) * 16 + b[1] / 16), SextetToChar((b[1] % 16) * 4), Pad]
    else EncodeFull(b[0], b[1], b[2]) + Encode(b[3..])
  }

  // ---------------------------------------------------------------------------
  // Properties

  /** A full quantum decodes to the three bytes it was encoded from. */
  lemma FullQuantumRoundTrip(b0: byte, b1: byte, b2: byte)
    ensures var q := EncodeFull(b0, b1, b2); DecodeFull(q[0], q[1], q[2], q[3]) == Some([b0, b1, b2])
  {
    var v1 := (b0 % 4) * 16 + b1 / 16;
    var v2 := (b1 % 16) * 4 + b2 / 64;
    assert v1 / 16 == b0 % 4 && v1 % 16 == b1 / 16;
    assert v2 / 4 == b1 % 16 && v2 % 4 == b2 / 64;
  }

  /** Decoding undoes encoding: every byte string survives the round trip. */
  lemma {:induction false} DecodeEncode(b: seq<byte>)
    ensures Decode(Encode(b)) == Some(b)
    decreases |b|
  {
    if |b| == 0 {
    } else if |b| == 1 {
      var v1 := (b[0] % 4) * 16;
      assert v1 / 16 == b[0] % 4;
      assert Encode(b) == [SextetToChar(b[0] / 4), SextetToChar(v1), Pad, Pad];
      assert b == [b[0]];
    } else if |b| == 2 {
      var v1 := (b[0] % 4) * 16 + b[1] / 16;
      var v2 := (b[1] % 16) * 4;
      assert v1 / 16 == b[0] % 4 && v1 % 16 == b[1] / 16;
      assert v2 / 4 == b[1] % 16;
      assert Encode(b) == [SextetToChar(b[0] / 4), SextetToChar(v1), SextetToChar(v2), Pad];
      assert b == [b[0], b[1]];
    } else {
      var q := EncodeFull(b[0], b[1], b[2]);
      var rest := Encode(b[3..]);
      var s := q + rest;
      assert Encode(b) == s;
      FullQuantumRoundTrip(b[0], b[1], b[2]);
      assert b == [b[0], b[1], b[2]] + b[3..];
      if |b| == 3 {
        assert rest == [] && s == q;
        assert q[2] != Pad && q[3] != Pad;
        assert Decode(s) == DecodeFull(q[0], q[1], q[2], q[3]);
        assert b == [b[0], b[1], b[2]];
      } else {
        DecodeEncode(b[3..]);
        assert s[0] == q[0] && s[1] == q[1] && s[2] == q[2] && s[3] == q[3];
        assert s[4..] == rest;
      }
    }
  }

  /**
   * Every successful decode takes a string whose length is a multiple of four
   * and yields three bytes per quantum, less one per pad character.
   */
  lemma {:induction false} DecodedLength(s: string)
    requires Decode(s).Some?
    ensures |s| % 4 == 0
    ensures |Decode(s).value| + PadCount(s) == 3 * (|s| / 4)
    decreases |s|
  {
    if |s| > 4 {
      DecodedLength(s[4..]);
      assert PadCount(s) == PadCount(s[4..]);
    }
  }
}
