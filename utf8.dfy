/** Strict UTF-8, as Python's str.encode('utf-8') and str(b, 'utf-8') use it. */
module Utf8 {
  import opened Wire
  import opened Results

  /** The one to four bytes of one code point. */
  function EncodeChar(c: char): (b: seq<byte>)
    ensures 1 <= |b| <= 4
    ensures (|b| == 1) == (c as int < 0x80)
  {
    var cp := c as int;
    if cp < 0x80 then [cp]
    else if cp < 0x800 then [0xC0 + cp / 64, 0x80 + cp % 64]
    else if cp < 0x10000 then [0xE0 + cp / 4096, 0x80 + cp / 64 % 64, 0x80 + cp % 64]
    else [0xF0 + cp / 262144, 0x80 + cp / 4096 % 64, 0x80 + cp / 64 % 64, 0x80 + cp % 64]
  }

  /** s.encode('utf-8'). */
  function Encode(s: string): (b: seq<byte>)
  {
    if |s| == 0 then [] else EncodeChar(s[0]) + Encode(s[1..])
  }

  predicate IsCont(b: byte)
  {
    0x80 <= b < 0xC0
  }

  /**
   * The first code point of b and the number of bytes it takes, or None when
   * b does not start with a well-formed sequence (a stray continuation byte,
   * a truncated sequence, an overlong form, a surrogate, or a value above
   * U+10FFFF).
   */
  function DecodeFirst(b: seq<byte>): (r: Option<(char, nat)>)
    requires |b| > 0
    ensures r.Some? ==> 1 <= r.value.1 <= |b| && r.value.1 <= 4
  {
    var b0: int := b[0];
    if b0 < 0x80 then Some((b0 as char, 1))
    else if 0xC0 <= b0 < 0xE0 then
      if |b| < 2 || !IsCont(b[1]) then None
      else
        var cp := Join2(b0 - 0xC0, b[1] - 0x80);
        if cp < 0x80 then None else Some((cp as char, 2))
    else if 0xE0 <= b0 < 0xF0 then
      if |b| < 3 || !IsCont(b[1]) || !IsCont(b[2]) then None
      else
        var cp := Join3(b0 - 0xE0, b[1] - 0x80, b[2] - 0x80);
        if cp < 0x800 || (0xD800 <= cp < 0xE000) then None else Some((cp as char, 3))
    else if 0xF0 <= b0 < 0xF8 then
      if |b| < 4 || !IsCont(b[1]) || !IsCont(b[2]) || !IsCont(b[3]) then None
      else
        var cp := Join4(b0 - 0xF0, b[1] - 0x80, b[2] - 0x80, b[3] - 0x80);
        if cp < 0x10000 || cp >= 0x110000 then None else Some((cp as char, 4))
    else None
  }

  /** The code point carried by a lead payload and 6-bit continuation payloads. */
  function Join2(x: int, y: int): int { x * 64 + y }
  function Join3(x: int, y: int, z: int): int { x * 4096 + y * 64 + z }
  function Join4(x: int, y: int, z: int, w: int): int { x * 262144 + y * 4096 + z * 64 + w }

  /** str(b, 'utf-8'): the decoded text, or UnicodeDecodeError. */
  function Decode(b: seq<byte>): (r: Result<string>)
    ensures r.Err? ==> r.error == UnicodeDecodeError
    ensures r.Ok? ==> |r.value| <= |b|
    decreases |b|
  {
    if |b| == 0 then Ok("")
    else match DecodeFirst(b)
      case None => Err(UnicodeDecodeError)
      case Some((c, n)) =>
        match Decode(b[n..])
        case Err(e) => Err(e)
        case Ok(rest) => Ok([c] + rest)
  }

  lemma DecodeFirstOfEncodeChar(c: char, rest: seq<byte>)
    ensures DecodeFirst(EncodeChar(c) + rest) == Some((c, |EncodeChar(c)|))
  {
    var cp := c as int;
    if cp < 0x80 {
    } else if cp < 0x800 {
      Split2(cp);
    } else if cp < 0x10000 {
      Split3(cp);
    } else {
      Split4(cp);
    }
  }

  lemma Split2(cp: int)
    requires 0x80 <= cp < 0x800
    ensures Join2(cp / 64, cp % 64) == cp
  {
  }

  lemma Split3(cp: int)
    requires 0x800 <= cp < 0x10000
    ensures Join3(cp / 4096, cp / 64 % 64, cp % 64) == cp
  {
    assert cp / 4096 * 64 + cp / 64 % 64 == cp / 64;
  }

  lemma Split4(cp: int)
    requires 0x10000 <= cp < 0x110000
    ensures Join4(cp / 262144, cp / 4096 % 64, cp / 64 % 64, cp % 64) == cp
  {
    assert cp / 262144 * 64 + cp / 4096 % 64 == cp / 4096;
    assert cp / 4096 * 64 + cp / 64 % 64 == cp / 64;
  }

  /** str(s.encode('utf-8'), 'utf-8') == s. */
  lemma {:induction false} RoundTrip(s: string)
    ensures Decode(Encode(s)) == Ok(s)
  {
    if |s| > 0 {
      var e := EncodeChar(s[0]);
      DecodeFirstOfEncodeChar(s[0], Encode(s[1..]));
      assert (e + Encode(s[1..]))[|e|..] == Encode(s[1..]);
      RoundTrip(s[1..]);
      assert [s[0]] + s[1..] == s;
    }
  }

  /**
   * A length prefix written for Encode(s) counts bytes, not characters: never
   * fewer than the characters, and exactly as many only for ASCII text.
   */
  lemma {:induction false} EncodedLength(s: string)
    ensures |Encode(s)| >= |s|
    ensures |Encode(s)| == |s| <==> forall i :: 0 <= i < |s| ==> s[i] as int < 0x80
  {
    if |s| > 0 {
      EncodedLength(s[1..]);
      assert forall i :: 1 <= i < |s| ==> s[i] == s[1..][i - 1];
    }
  }

  /** One ASCII character is its own code as a single byte. */
  lemma AsciiChar(c: char)
    requires c as int < 0x80
    ensures Encode([c]) == [c as int]
  {
    assert [c][1..] == [];
  }

  /** A one-byte input decodes exactly when the byte is ASCII. */
  lemma {:induction false} DecodeOneByte(b: byte)
    ensures Decode([b]).Ok? <==> b < 0x80
    ensures b < 0x80 ==> Decode([b]) == Ok([b as char])
  {
    assert [b][1..] == [];
    if b < 0x80 {
      assert DecodeFirst([b]) == Some((b as char, 1));
      assert [b as char] + "" == [b as char];
    }
  }
}
