/**
 * The field codec and the handler table of messaging/__init__.py: a cursor
 * that the take_* readers advance over one frame's payload, the add_*
 * writers that append the same layouts to a bytearray, and the tag table.
 */
module Messaging {
  import opened Wire
  import opened Results
  import Utf8

  /** Width of the message tag. */
  const IdSize: nat := 1
  /** Width of the length prefix of a blob or string field. */
  const DataLenSize: nat := 4

  // ---------------------------------------------------------------------
  // Field layouts, as written by the add_* functions

  predicate UintFits(v: int, n: nat)
  {
    0 <= v < Pow256(n)
  }

  /** The range int.to_bytes(n, signed=True) accepts. */
  predicate SintFits(v: int, n: nat)
  {
    if n == 0 then v == 0 else -(Pow256(n) / 2) <= v < Pow256(n) / 2
  }

  predicate DataFits(d: seq<byte>)
  {
    |d| < Pow256(DataLenSize)
  }

  predicate StrFits(s: string)
  {
    DataFits(Utf8.Encode(s))
  }

  function BoolBytes(b: bool): seq<byte>
  {
    [if b then 1 else 0]
  }

  /** Two's complement in n bytes, little-endian. */
  function SintBytes(v: int, n: nat): (s: seq<byte>)
    requires SintFits(v, n)
    ensures |s| == n
  {
    LeBytes(v % Pow256(n), n)
  }

  /** A 4-byte little-endian length, then the bytes. */
  function DataField(d: seq<byte>): (s: seq<byte>)
    requires DataFits(d)
    ensures |s| == DataLenSize + |d|
  {
    LeBytes(|d|, DataLenSize) + d
  }

  /** A string field is the data field of its UTF-8 bytes. */
  function StrField(s: string): (f: seq<byte>)
    requires StrFits(s)
    ensures |f| == DataLenSize + |Utf8.Encode(s)|
  {
    DataField(Utf8.Encode(s))
  }

  // ---------------------------------------------------------------------
  // Field readers, as the take_* methods compute them from (data, position)

  /** take_uint(n): the value of the n bytes at pos, clamped at the end of data. */
  function UintAt(data: seq<byte>, pos: nat, n: nat): nat
  {
    LeValue(Slice(data, pos, pos + n))
  }

  /** The length prefix read by take_data. */
  function DataLenAt(data: seq<byte>, pos: nat): nat
  {
    UintAt(data, pos, DataLenSize)
  }

  /** Where the cursor stands after take_data: past the prefix and the declared length. */
  function DataEnd(data: seq<byte>, pos: nat): nat
  {
    pos + DataLenSize + DataLenAt(data, pos)
  }

  /** take_data: the bytes the length prefix declares, clamped at the end of data. */
  function DataAt(data: seq<byte>, pos: nat): (d: seq<byte>)
    ensures |d| <= DataLenAt(data, pos) && |d| <= |data|
  {
    Slice(data, pos + DataLenSize, DataEnd(data, pos))
  }

  /** take_str: the data field decoded as UTF-8. */
  function StrAt(data: seq<byte>, pos: nat): (r: Result<string>)
    ensures r.Err? ==> r.error == UnicodeDecodeError
  {
    Utf8.Decode(DataAt(data, pos))
  }

  /** str(frame[:ID_SIZE], 'utf-8'): the tag as Handlers.process reads it. */
  function FrameTag(frame: seq<byte>): (r: Result<string>)
    ensures r.Err? ==> r.error == UnicodeDecodeError
    ensures r.Ok? ==> |r.value| <= IdSize
  {
    Utf8.Decode(Slice(frame, 0, IdSize))
  }

  // ---------------------------------------------------------------------
  // Properties of the readers and the round trips through the writers

  /** With enough bytes, take_uint reads exactly n bytes, and its value fits them. */
  lemma UintAtInRange(data: seq<byte>, pos: nat, n: nat)
    requires pos + n <= |data|
    ensures UintAt(data, pos, n) == LeValue(data[pos..pos + n])
    ensures UintAt(data, pos, n) < Pow256(n)
  {
    LeValueBound(data[pos..pos + n]);
  }

  /** No bounds check: a read that starts at or past the end yields 0. */
  lemma UintAtPastEnd(data: seq<byte>, pos: nat, n: nat)
    requires |data| <= pos
    ensures UintAt(data, pos, n) == 0
  {
  }

  /** add_uint(v, n) followed by take_uint(n) gives v back. */
  lemma UintRoundTrip(pre: seq<byte>, v: nat, n: nat, post: seq<byte>)
    requires v < Pow256(n)
    ensures UintAt(pre + LeBytes(v, n) + post, |pre|, n) == v
  {
    var data := pre + LeBytes(v, n) + post;
    assert data[|pre|..|pre| + n] == LeBytes(v, n);
    LeRoundTrip(v, n);
  }

  /** add_bool followed by take_bool gives the boolean back. */
  lemma BoolRoundTrip(pre: seq<byte>, b: bool, post: seq<byte>)
    ensures (UintAt(pre + BoolBytes(b) + post, |pre|, 1) != 0) == b
  {
    assert BoolBytes(b) == LeBytes(if b then 1 else 0, 1);
    UintRoundTrip(pre, if b then 1 else 0, 1, post);
  }

  /** add_data followed by take_data gives the bytes back and moves past the field. */
  lemma DataRoundTrip(pre: seq<byte>, d: seq<byte>, post: seq<byte>)
    requires DataFits(d)
    ensures DataAt(pre + DataField(d) + post, |pre|) == d
    ensures DataEnd(pre + DataField(d) + post, |pre|) == |pre| + DataLenSize + |d|
  {
    var data := pre + DataField(d) + post;
    assert data == pre + LeBytes(|d|, DataLenSize) + (d + post);
    UintRoundTrip(pre, |d|, DataLenSize, d + post);
    assert data[|pre| + DataLenSize..|pre| + DataLenSize + |d|] == d;
  }

  /** add_string followed by take_str gives the string back. */
  lemma StrRoundTrip(pre: seq<byte>, s: string, post: seq<byte>)
    requires StrFits(s)
    ensures StrAt(pre + StrField(s) + post, |pre|) == Ok(s)
    ensures DataEnd(pre + StrField(s) + post, |pre|) == |pre| + DataLenSize + |Utf8.Encode(s)|
  {
    DataRoundTrip(pre, Utf8.Encode(s), post);
    Utf8.RoundTrip(s);
  }

  /**
   * take_sint decodes with signed=False, so what add_sint(v, n) wrote comes
   * back as v mod 256^n: the two's complement bit pattern, not v.
   */
  lemma SintRoundTripAsWritten(pre: seq<byte>, v: int, n: nat, post: seq<byte>)
    requires SintFits(v, n)
    ensures UintAt(pre + SintBytes(v, n) + post, |pre|, n) == v % Pow256(n)
    ensures v < 0 ==> UintAt(pre + SintBytes(v, n) + post, |pre|, n) == v + Pow256(n)
  {
    UintRoundTrip(pre, v % Pow256(n), n, post);
    if v < 0 {
      ModOfNegative(v, Pow256(n));
    }
  }

  lemma ModOfSmall(v: int, p: int)
    requires 0 <= v < p
    ensures v % p == v
  {
  }

  lemma ModOfNegative(v: int, p: int)
    requires 0 < p && -p <= v < 0
    ensures v % p == v + p
  {
  }

  /** The smallest case: add_sint(-1, 1) then take_sint(1) reads 255. */
  lemma SintMinusOneReadsBack255()
    ensures SintFits(-1, 1) && UintAt(SintBytes(-1, 1), 0, 1) == 255
  {
    SintRoundTripAsWritten([], -1, 1, []);
    assert [] + SintBytes(-1, 1) + [] == SintBytes(-1, 1);
  }

  /** A signed decode of the n bytes at pos, as take_sint's docstring intends. */
  function SintAt(data: seq<byte>, pos: nat, n: nat): int
  {
    var u := UintAt(data, pos, n);
    if n > 0 && u >= Pow256(n) / 2 then u - Pow256(n) else u
  }

  /** With the signed decode, add_sint followed by the read gives v back. */
  lemma SintRoundTrip(pre: seq<byte>, v: int, n: nat, post: seq<byte>)
    requires SintFits(v, n)
    ensures SintAt(pre + SintBytes(v, n) + post, |pre|, n) == v
  {
    SintRoundTripAsWritten(pre, v, n, post);
    var p := Pow256(n);
    if n > 0 {
      assert p == 256 * Pow256(n - 1);
      assert p - p / 2 == p / 2;
      if v >= 0 {
        ModOfSmall(v, p);
      }
    }
  }

  /** A frame's tag decodes unless its first byte is not ASCII; an empty frame has tag "". */
  lemma FrameTagShape(frame: seq<byte>)
    ensures |frame| == 0 ==> FrameTag(frame) == Ok("")
    ensures |frame| > 0 ==> (FrameTag(frame).Ok? <==> frame[0] < 0x80)
    ensures |frame| > 0 && frame[0] < 0x80 ==> FrameTag(frame) == Ok([frame[0] as char])
  {
    if |frame| > 0 {
      assert Slice(frame, 0, IdSize) == [frame[0]];
      Utf8.DecodeOneByte(frame[0]);
    }
  }

  // ---------------------------------------------------------------------
  // Handler's cursor

  /** The read cursor of a Handler: _data and _position. */
  class Cursor {
    var position: nat
    var data: seq<byte>

    /** Handler._parse binds the payload and rewinds the cursor to 0. */
    constructor (payload: seq<byte>)
      ensures data == payload && position == 0
    {
      data := payload;
      position := 0;
    }

    method TakeUint(size: nat) returns (v: nat)
      modifies this`position
      ensures position == old(position) + size
      ensures v == UintAt(data, old(position), size)
    {
      position := position + size;
      v := LeValue(Slice(data, position - size, position));
    }

    method TakeBool() returns (b: bool)
      modifies this`position
      ensures position == old(position) + 1
      ensures b == (UintAt(data, old(position), 1) != 0)
    {
      var v := TakeUint(1);
      b := v != 0;
    }

    /** Decodes unsigned, exactly like TakeUint. */
    method TakeSint(size: nat) returns (v: int)
      modifies this`position
      ensures position == old(position) + size
      ensures v == UintAt(data, old(position), size)
    {
      position := position + size;
      v := LeValue(Slice(data, position - size, position));
    }

    method TakeData() returns (d: seq<byte>)
      modifies this`position
      ensures position == DataEnd(data, old(position))
      ensures d == DataAt(data, old(position))
    {
      var length := TakeUint(DataLenSize);
      position := position + length;
      d := Slice(data, position - length, position);
    }

    method TakeStr() returns (r: Result<string>)
      modifies this`position
      ensures position == DataEnd(data, old(position))
      ensures r == StrAt(data, old(position))
    {
      var d := TakeData();
      r := Utf8.Decode(d);
    }
  }

  // ---------------------------------------------------------------------
  // The output buffer of the add_* functions

  /** A bytearray that the add_* functions extend in place. */
  class ByteArray {
    var bytes: seq<byte>

    constructor ()
      ensures bytes == []
    {
      bytes := [];
    }

    /** add_id: the tag must be one character; its UTF-8 bytes are appended. */
    method AddId(id: string) returns (r: Outcome)
      modifies this
      ensures r == if |id| == IdSize then Pass else Fail(AssertionError)
      ensures bytes == if r.Pass? then old(bytes) + Utf8.Encode(id) else old(bytes)
    {
      if |id| != IdSize {
        return Fail(AssertionError);
      }
      bytes := bytes + Utf8.Encode(id);
      r := Pass;
    }

    method AddBool(val: bool)
      modifies this
      ensures bytes == old(bytes) + BoolBytes(val)
    {
      var r := AddUint(if val then 1 else 0, 1);
      assert r.Pass?;
      assert LeBytes(if val then 1 else 0, 1) == BoolBytes(val);
    }

    /** add_uint: to_bytes raises OverflowError for a negative or too wide value. */
    method AddUint(val: int, size: nat) returns (r: Outcome)
      modifies this
      ensures r == if UintFits(val, size) then Pass else Fail(OverflowError)
      ensures bytes == if r.Pass? then old(bytes) + LeBytes(val, size) else old(bytes)
    {
      if !UintFits(val, size) {
        return Fail(OverflowError);
      }
      bytes := bytes + LeBytes(val, size);
      r := Pass;
    }

    /** add_sint: two's complement; OverflowError outside the signed range. */
    method AddSint(val: int, size: nat) returns (r: Outcome)
      modifies this
      ensures r == if SintFits(val, size) then Pass else Fail(OverflowError)
      ensures bytes == if r.Pass? then old(bytes) + SintBytes(val, size) else old(bytes)
    {
      if !SintFits(val, size) {
        return Fail(OverflowError);
      }
      bytes := bytes + SintBytes(val, size);
      r := Pass;
    }

    /** add_data: the length must fit the 4-byte prefix. */
    method AddData(data: seq<byte>) returns (r: Outcome)
      modifies this
      ensures r == if DataFits(data) then Pass else Fail(OverflowError)
      ensures bytes == if r.Pass? then old(bytes) + DataField(data) else old(bytes)
    {
      r := AddUint(|data|, DataLenSize);
      if r.Pass? {
        bytes := bytes + data;
      }
    }

    /** add_string: the prefix counts the UTF-8 bytes of s. */
    method AddString(s: string) returns (r: Outcome)
      modifies this
      ensures r == if StrFits(s) then Pass else Fail(OverflowError)
      ensures bytes == if r.Pass? then old(bytes) + StrField(s) else old(bytes)
    {
      var data := Utf8.Encode(s);
      r := AddUint(|data|, DataLenSize);
      if r.Pass? {
        bytes := bytes + data;
      }
    }
  }

  // ---------------------------------------------------------------------
  // Handlers: the tag table

  /** The table from tag to registered handler. */
  class Registry<H> {
    var messages: map<string, H>

    constructor ()
      ensures messages == map[]
    {
      messages := map[];
    }

    /** Handlers.add: a tag already registered fails its assertion and changes nothing. */
    method Add(id: string, handler: H) returns (r: Outcome)
      modifies this
      ensures r == if id in old(messages) then Fail(AssertionError) else Pass
      ensures messages == if r.Pass? then old(messages)[id := handler] else old(messages)
    {
      if id in messages {
        return Fail(AssertionError);
      }
      messages := messages[id := handler];
      r := Pass;
    }
  }
}
