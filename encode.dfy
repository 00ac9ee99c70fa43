/**
 * The outbound frame builders of messaging/encode.py. Each grows a fresh
 * bytearray field by field, in a fixed positional order, after a one-byte tag.
 */
module Encode {
  import opened Wire
  import opened Results
  import Utf8
  import opened Messaging

  const BatchId: char := '['
  const TextureListId: char := 'L'
  const UvMapId: char := 'M'
  const ImageId: char := 'I'
  const SpriteNewId: char := 'S'
  const SpriteOpenId: char := 'O'

  /** The single byte an ASCII tag encodes to. */
  function TagByte(c: char): (b: byte)
    requires c as int < 0x80
    ensures Utf8.Encode([c]) == [b]
  {
    Utf8.AsciiChar(c);
    c as int
  }

  // ---------------------------------------------------------------------
  // The byte layouts

  predicate AllDataFit(ms: seq<seq<byte>>)
  {
    forall m :: m in ms ==> DataFits(m)
  }

  predicate AllStrFit(names: seq<string>)
  {
    forall s :: s in names ==> StrFits(s)
  }

  /** Length-prefixed blobs, back to back, in order. */
  function DataFields(ms: seq<seq<byte>>): seq<byte>
    requires AllDataFit(ms)
  {
    if |ms| == 0 then [] else DataField(ms[0]) + DataFields(ms[1..])
  }

  /** Length-prefixed strings, back to back, in order. */
  function StrFields(names: seq<string>): seq<byte>
    requires AllStrFit(names)
  {
    if |names| == 0 then [] else StrField(names[0]) + StrFields(names[1..])
  }

  /** batch: '[', a u16 message count, then each message as a data field. */
  function BatchFrame(messages: seq<seq<byte>>): (r: Result<seq<byte>>)
    ensures r.Ok? <==> UintFits(|messages|, 2) && AllDataFit(messages)
    ensures r.Err? ==> r.error == OverflowError
    ensures r.Ok? ==> |r.value| >= 3 && r.value[0] == '[' as int
  {
    if UintFits(|messages|, 2) && AllDataFit(messages) then
      Ok([TagByte(BatchId)] + LeBytes(|messages|, 2) + DataFields(messages))
    else Err(OverflowError)
  }

  /** texture_list: 'L', then the names as string fields; no count. */
  function TextureListFrame(images: seq<string>): (r: Result<seq<byte>>)
    ensures r.Ok? <==> AllStrFit(images)
    ensures r.Err? ==> r.error == OverflowError
    ensures r.Ok? ==> |r.value| >= 1 && r.value[0] == 'L' as int
    ensures images == [] ==> r == Ok(['L' as int])
  {
    if AllStrFit(images) then Ok([TagByte(TextureListId)] + StrFields(images))
    else Err(OverflowError)
  }

  /** uv_map: 'M', opacity u8, width u16, height u16, layer, sprite, pixel blob. */
  function UvMapFrame(width: int, height: int, sprite: string, pixels: seq<byte>, opacity: int, layer: string)
    : (r: Result<seq<byte>>)
    ensures r.Ok? <==> UintFits(opacity, 1) && UintFits(width, 2) && UintFits(height, 2)
                       && StrFits(layer) && StrFits(sprite) && DataFits(pixels)
    ensures r.Err? ==> r.error == OverflowError
    ensures r.Ok? ==> |r.value| == 1 + 1 + 2 + 2 + 4 + |Utf8.Encode(layer)| + 4 + |Utf8.Encode(sprite)| + 4 + |pixels|
    ensures r.Ok? ==> r.value[0] == 'M' as int && r.value[1] == opacity
  {
    if UintFits(opacity, 1) && UintFits(width, 2) && UintFits(height, 2)
       && StrFits(layer) && StrFits(sprite) && DataFits(pixels)
    then
      Ok([TagByte(UvMapId)] + LeBytes(opacity, 1) + LeBytes(width, 2) + LeBytes(height, 2)
         + StrField(layer) + StrField(sprite) + DataField(pixels))
    else Err(OverflowError)
  }

  /** image: 'I', width u16, height u16, name, pixel blob. */
  function ImageFrame(name: string, width: int, height: int, pixels: seq<byte>): (r: Result<seq<byte>>)
    ensures r.Ok? <==> UintFits(width, 2) && UintFits(height, 2) && StrFits(name) && DataFits(pixels)
    ensures r.Err? ==> r.error == OverflowError
    ensures r.Ok? ==> |r.value| == 1 + 2 + 2 + 4 + |Utf8.Encode(name)| + 4 + |pixels|
    ensures r.Ok? ==> r.value[0] == 'I' as int
  {
    if UintFits(width, 2) && UintFits(height, 2) && StrFits(name) && DataFits(pixels) then
      Ok([TagByte(ImageId)] + LeBytes(width, 2) + LeBytes(height, 2) + StrField(name) + DataField(pixels))
    else Err(OverflowError)
  }

  /** sprite_new: 'S', mode u8, width u16, height u16, name. */
  function SpriteNewFrame(name: string, mode: int, width: int, height: int): (r: Result<seq<byte>>)
    ensures r.Ok? <==> UintFits(mode, 1) && UintFits(width, 2) && UintFits(height, 2) && StrFits(name)
    ensures r.Err? ==> r.error == OverflowError
    ensures r.Ok? ==> |r.value| == 1 + 1 + 2 + 2 + 4 + |Utf8.Encode(name)|
    ensures r.Ok? ==> r.value[0] == 'S' as int && r.value[1] == mode
  {
    if UintFits(mode, 1) && UintFits(width, 2) && UintFits(height, 2) && StrFits(name) then
      Ok([TagByte(SpriteNewId)] + LeBytes(mode, 1) + LeBytes(width, 2) + LeBytes(height, 2) + StrField(name))
    else Err(OverflowError)
  }

  /** sprite_open: 'O', then the name: 1 + 4 + its UTF-8 length in bytes. */
  function SpriteOpenFrame(name: string): (r: Result<seq<byte>>)
    ensures r.Ok? <==> StrFits(name)
    ensures r.Err? ==> r.error == OverflowError
    ensures r.Ok? ==> |r.value| == 1 + 4 + |Utf8.Encode(name)| && r.value[0] == 'O' as int
  {
    if StrFits(name) then Ok([TagByte(SpriteOpenId)] + StrField(name)) else Err(OverflowError)
  }

  lemma {:induction false} DataFieldsSnoc(ms: seq<seq<byte>>, m: seq<byte>)
    requires AllDataFit(ms) && DataFits(m)
    ensures AllDataFit(ms + [m])
    ensures DataFields(ms + [m]) == DataFields(ms) + DataField(m)
  {
    if |ms| > 0 {
      assert (ms + [m])[1..] == ms[1..] + [m];
      DataFieldsSnoc(ms[1..], m);
    } else {
      assert ms + [m] == [m];
    }
  }

  lemma {:induction false} StrFieldsSnoc(names: seq<string>, s: string)
    requires AllStrFit(names) && StrFits(s)
    ensures AllStrFit(names + [s])
    ensures StrFields(names + [s]) == StrFields(names) + StrField(s)
  {
    if |names| > 0 {
      assert (names + [s])[1..] == names[1..] + [s];
      StrFieldsSnoc(names[1..], s);
    } else {
      assert names + [s] == [s];
    }
  }

  /** One more message of the input: either it does not fit, or the fields grow by it. */
  lemma DataFieldsStep(ms: seq<seq<byte>>, i: nat)
    requires i < |ms| && AllDataFit(ms[..i])
    ensures !DataFits(ms[i]) ==> !AllDataFit(ms)
    ensures DataFits(ms[i]) ==> AllDataFit(ms[..i + 1])
    ensures DataFits(ms[i]) ==> DataFields(ms[..i + 1]) == DataFields(ms[..i]) + DataField(ms[i])
  {
    assert ms[i] in ms;
    if DataFits(ms[i]) {
      DataFieldsSnoc(ms[..i], ms[i]);
      assert ms[..i + 1] == ms[..i] + [ms[i]];
    }
  }

  /** One more name of the input: either it does not fit, or the fields grow by it. */
  lemma StrFieldsStep(names: seq<string>, i: nat)
    requires i < |names| && AllStrFit(names[..i])
    ensures !StrFits(names[i]) ==> !AllStrFit(names)
    ensures StrFits(names[i]) ==> AllStrFit(names[..i + 1])
    ensures StrFits(names[i]) ==> StrFields(names[..i + 1]) == StrFields(names[..i]) + StrField(names[i])
  {
    assert names[i] in names;
    if StrFits(names[i]) {
      StrFieldsSnoc(names[..i], names[i]);
      assert names[..i + 1] == names[..i] + [names[i]];
    }
  }

  // ---------------------------------------------------------------------
  // Reading the outbound frames back with the field readers

  /** `count` consecutive take_str reads from pos: the strings, or the first decoding error. */
  function StrRun(data: seq<byte>, pos: nat, count: nat): (r: (Result<seq<string>>, nat))
    ensures r.0.Ok? ==> |r.0.value| == count
    ensures r.0.Err? ==> r.0.error == UnicodeDecodeError
    decreases count
  {
    if count == 0 then (Ok([]), pos)
    else
      match StrAt(data, pos)
      case Err(e) => (Err(e), DataEnd(data, pos))
      case Ok(s) =>
        var rest := StrRun(data, DataEnd(data, pos), count - 1);
        (if rest.0.Err? then rest.0 else Ok([s] + rest.0.value), rest.1)
  }

  /** One take_str that decodes, followed by a run that decodes. */
  lemma StrRunCons(data: seq<byte>, pos: nat, count: nat, s: string, rest: seq<string>, end: nat)
    requires count > 0 && StrAt(data, pos) == Ok(s)
    requires StrRun(data, DataEnd(data, pos), count - 1) == (Ok(rest), end)
    ensures StrRun(data, pos, count) == (Ok([s] + rest), end)
  {
  }

  /** The string fields written back to back are read back in order, ending at the end. */
  lemma {:induction false} StrRunOfFields(pre: seq<byte>, names: seq<string>)
    requires AllStrFit(names)
    ensures StrRun(pre + StrFields(names), |pre|, |names|) == (Ok(names), |pre + StrFields(names)|)
    decreases |names|
  {
    if |names| == 0 {
      assert pre + StrFields(names) == pre;
    } else {
      assert names[0] in names;
      assert forall s :: s in names[1..] ==> s in names;
      StrRunOfFields(pre + StrField(names[0]), names[1..]);
      StrRunOfFieldsStep(pre, names);
    }
  }

  /** The step of StrRunOfFields: the first field is read, then the rest as the shorter run. */
  lemma StrRunOfFieldsStep(pre: seq<byte>, names: seq<string>)
    requires |names| > 0 && AllStrFit(names) && StrFits(names[0]) && AllStrFit(names[1..])
    requires StrRun(pre + StrField(names[0]) + StrFields(names[1..]), |pre + StrField(names[0])|, |names| - 1)
          == (Ok(names[1..]), |pre + StrField(names[0]) + StrFields(names[1..])|)
    ensures StrRun(pre + StrFields(names), |pre|, |names|) == (Ok(names), |pre + StrFields(names)|)
  {
    var head := StrField(names[0]);
    var rest := StrFields(names[1..]);
    assert StrFields(names) == head + rest;
    ConcatAssoc(pre, head, rest);
    var data := pre + head + rest;
    StrRoundTrip(pre, names[0], rest);
    StrRunCons(data, |pre|, |names|, names[0], names[1..], |data|);
    assert [names[0]] + names[1..] == names;
  }

  /**
   * A texture_list frame holds no count: its names are the string fields
   * that start right after the tag and run to the end of the frame.
   */
  lemma TextureListRoundTrip(images: seq<string>)
    requires TextureListFrame(images).Ok?
    ensures StrRun(TextureListFrame(images).value, 1, |images|)
         == (Ok(images), |TextureListFrame(images).value|)
  {
    var t := [TagByte(TextureListId)];
    assert TextureListFrame(images).value == t + StrFields(images);
    StrRunOfFields(t, images);
  }

  /** A u8 and two u16 fields after a tag byte are read back at 1, 2 and 4. */
  lemma HeaderRoundTrip(tag: byte, a: int, b: int, c: int, post: seq<byte>)
    requires UintFits(a, 1) && UintFits(b, 2) && UintFits(c, 2)
    ensures var f := [tag] + LeBytes(a, 1) + LeBytes(b, 2) + LeBytes(c, 2) + post;
      UintAt(f, 1, 1) == a && UintAt(f, 2, 2) == b && UintAt(f, 4, 2) == c
  {
    var t := [tag];
    var x := LeBytes(a, 1);
    var y := LeBytes(b, 2);
    var z := LeBytes(c, 2);
    UintRoundTrip(t, a, 1, y + z + post);
    ConcatAssoc(t + x, y + z, post);
    ConcatAssoc(t + x, y, z);
    UintRoundTrip(t + x, b, 2, z + post);
    ConcatAssoc(t + x + y, z, post);
    UintRoundTrip(t + x + y, c, 2, post);
  }

  /** Two string fields and a data field are read back in order, filling the rest. */
  lemma TailRoundTrip(pre: seq<byte>, a: string, b: string, d: seq<byte>)
    requires StrFits(a) && StrFits(b) && DataFits(d)
    ensures var f := pre + StrField(a) + StrField(b) + DataField(d);
      && StrAt(f, |pre|) == Ok(a)
      && StrAt(f, DataEnd(f, |pre|)) == Ok(b)
      && DataAt(f, DataEnd(f, DataEnd(f, |pre|))) == d
      && DataEnd(f, DataEnd(f, DataEnd(f, |pre|))) == |f|
  {
    var sa := StrField(a);
    var sb := StrField(b);
    var p := DataField(d);
    var f := pre + sa + sb + p;
    StrRoundTrip(pre, a, sb + p);
    ConcatAssoc(pre + sa, sb, p);
    StrRoundTrip(pre + sa, b, p);
    DataRoundTrip(pre + sa + sb, d, []);
    assert f + [] == f;
  }

  /** Two u16 fields at pos are read back at pos and pos + 2. */
  lemma SizeRoundTrip(pre: seq<byte>, a: int, b: int, post: seq<byte>)
    requires UintFits(a, 2) && UintFits(b, 2)
    ensures var f := pre + LeBytes(a, 2) + LeBytes(b, 2) + post;
      UintAt(f, |pre|, 2) == a && UintAt(f, |pre| + 2, 2) == b
  {
    var x := LeBytes(a, 2);
    var y := LeBytes(b, 2);
    UintRoundTrip(pre, a, 2, y + post);
    ConcatAssoc(pre + x, y, post);
    UintRoundTrip(pre + x, b, 2, post);
  }

  /** A string field then a data field are read back in order, filling the rest. */
  lemma StrDataRoundTrip(pre: seq<byte>, a: string, d: seq<byte>)
    requires StrFits(a) && DataFits(d)
    ensures var f := pre + StrField(a) + DataField(d);
      && StrAt(f, |pre|) == Ok(a)
      && DataAt(f, DataEnd(f, |pre|)) == d
      && DataEnd(f, DataEnd(f, |pre|)) == |f|
  {
    var sa := StrField(a);
    var p := DataField(d);
    var f := pre + sa + p;
    StrRoundTrip(pre, a, p);
    DataRoundTrip(pre + sa, d, []);
    assert f + [] == f;
  }

  /** The payload of an image frame reads back as width, height, name and pixels. */
  lemma ImagePayloadRoundTrip(name: string, width: int, height: int, pixels: seq<byte>)
    requires ImageFrame(name, width, height, pixels).Ok?
    ensures var f := ImageFrame(name, width, height, pixels).value[1..];
      && UintAt(f, 0, 2) == width && UintAt(f, 2, 2) == height
      && StrAt(f, 4) == Ok(name)
      && DataAt(f, DataEnd(f, 4)) == pixels
  {
    var size := LeBytes(width, 2) + LeBytes(height, 2);
    var tail := StrField(name) + DataField(pixels);
    var f := ImageFrame(name, width, height, pixels).value[1..];
    assert f == size + tail;
    SizeRoundTrip([], width, height, tail);
    assert [] + LeBytes(width, 2) == LeBytes(width, 2);
    StrDataRoundTrip(size, name, pixels);
    ConcatAssoc(size, StrField(name), DataField(pixels));
  }

  /** A uv_map frame reads back as opacity, width, height, layer, sprite and pixels, filling the frame. */
  lemma UvMapRoundTrip(width: int, height: int, sprite: string, pixels: seq<byte>, opacity: int, layer: string)
    requires UvMapFrame(width, height, sprite, pixels, opacity, layer).Ok?
    ensures var f := UvMapFrame(width, height, sprite, pixels, opacity, layer).value;
      && UintAt(f, 1, 1) == opacity && UintAt(f, 2, 2) == width && UintAt(f, 4, 2) == height
      && StrAt(f, 6) == Ok(layer)
      && StrAt(f, DataEnd(f, 6)) == Ok(sprite)
      && DataAt(f, DataEnd(f, DataEnd(f, 6))) == pixels
      && DataEnd(f, DataEnd(f, DataEnd(f, 6))) == |f|
  {
    var head := [TagByte(UvMapId)] + LeBytes(opacity, 1) + LeBytes(width, 2) + LeBytes(height, 2);
    var tail := StrField(layer) + StrField(sprite) + DataField(pixels);
    assert UvMapFrame(width, height, sprite, pixels, opacity, layer).value == head + tail;
    HeaderRoundTrip(TagByte(UvMapId), opacity, width, height, tail);
    TailRoundTrip(head, layer, sprite, pixels);
    ConcatAssoc(head, StrField(layer), StrField(sprite));
    ConcatAssoc(head, StrField(layer) + StrField(sprite), DataField(pixels));
  }

  /** A sprite_new frame reads back as mode, width, height and name, filling the frame. */
  lemma SpriteNewRoundTrip(name: string, mode: int, width: int, height: int)
    requires SpriteNewFrame(name, mode, width, height).Ok?
    ensures var f := SpriteNewFrame(name, mode, width, height).value;
      && UintAt(f, 1, 1) == mode && UintAt(f, 2, 2) == width && UintAt(f, 4, 2) == height
      && StrAt(f, 6) == Ok(name) && DataEnd(f, 6) == |f|
  {
    var head := [TagByte(SpriteNewId)] + LeBytes(mode, 1) + LeBytes(width, 2) + LeBytes(height, 2);
    var f := SpriteNewFrame(name, mode, width, height).value;
    assert f == head + StrField(name);
    HeaderRoundTrip(TagByte(SpriteNewId), mode, width, height, StrField(name));
    StrRoundTrip(head, name, []);
    assert f + [] == f;
  }

  /** A sprite_open frame reads back as its name, filling the frame. */
  lemma SpriteOpenRoundTrip(name: string)
    requires SpriteOpenFrame(name).Ok?
    ensures StrAt(SpriteOpenFrame(name).value, 1) == Ok(name)
    ensures DataEnd(SpriteOpenFrame(name).value, 1) == |SpriteOpenFrame(name).value|
  {
    var f := SpriteOpenFrame(name).value;
    StrRoundTrip([TagByte(SpriteOpenId)], name, []);
    assert [TagByte(SpriteOpenId)] + StrField(name) + [] == f;
  }

  // ---------------------------------------------------------------------
  // The builders

  method Batch(messages: seq<seq<byte>>) returns (r: Result<seq<byte>>)
    ensures r == BatchFrame(messages)
  {
    var data := new ByteArray();
    var ok := data.AddId([BatchId]);
    assert data.bytes == [TagByte(BatchId)];
    ok := data.AddUint(|messages|, 2);
    if ok.Fail? {
      return Err(ok.error);
    }
    ghost var head := data.bytes;
    var i := 0;
    while i < |messages|
      invariant 0 <= i <= |messages|
      invariant AllDataFit(messages[..i])
      invariant fresh(data)
      invariant data.bytes == head + DataFields(messages[..i])
    {
      ok := data.AddData(messages[i]);
      if ok.Fail? {
        DataFieldsStep(messages, i);
        return Err(ok.error);
      }
      DataFieldsStep(messages, i);
      ConcatAssoc(head, DataFields(messages[..i]), DataField(messages[i]));
      i := i + 1;
    }
    assert messages[..i] == messages;
    r := Ok(data.bytes);
  }

  method TextureList(images: seq<string>) returns (r: Result<seq<byte>>)
    ensures r == TextureListFrame(images)
  {
    var data := new ByteArray();
    var ok := data.AddId([TextureListId]);
    assert data.bytes == [TagByte(TextureListId)];
    ghost var head := data.bytes;
    var i := 0;
    while i < |images|
      invariant 0 <= i <= |images|
      invariant AllStrFit(images[..i])
      invariant fresh(data)
      invariant data.bytes == head + StrFields(images[..i])
    {
      ok := data.AddString(images[i]);
      if ok.Fail? {
        StrFieldsStep(images, i);
        return Err(ok.error);
      }
      StrFieldsStep(images, i);
      ConcatAssoc(head, StrFields(images[..i]), StrField(images[i]));
      i := i + 1;
    }
    assert images[..i] == images;
    r := Ok(data.bytes);
  }

  method UvMap(width: int, height: int, sprite: string, pixels: seq<byte>, opacity: int, layer: string)
    returns (r: Result<seq<byte>>)
    ensures r == UvMapFrame(width, height, sprite, pixels, opacity, layer)
  {
    var data := new ByteArray();
    var ok := data.AddId([UvMapId]);
    assert data.bytes == [TagByte(UvMapId)];
    ok := data.AddUint(opacity, 1);
    if ok.Fail? { return Err(ok.error); }
    ok := data.AddUint(width, 2);
    if ok.Fail? { return Err(ok.error); }
    ok := data.AddUint(height, 2);
    if ok.Fail? { return Err(ok.error); }
    ok := data.AddString(layer);
    if ok.Fail? { return Err(ok.error); }
    ok := data.AddString(sprite);
    if ok.Fail? { return Err(ok.error); }
    ok := data.AddData(pixels);
    if ok.Fail? { return Err(ok.error); }
    r := Ok(data.bytes);
  }

  method Image(name: string, width: int, height: int, pixels: seq<byte>) returns (r: Result<seq<byte>>)
    ensures r == ImageFrame(name, width, height, pixels)
  {
    var data := new ByteArray();
    var ok := data.AddId([ImageId]);
    assert data.bytes == [TagByte(ImageId)];
    ok := data.AddUint(width, 2);
    if ok.Fail? { return Err(ok.error); }
    ok := data.AddUint(height, 2);
    if ok.Fail? { return Err(ok.error); }
    ok := data.AddString(name);
    if ok.Fail? { return Err(ok.error); }
    ok := data.AddData(pixels);
    if ok.Fail? { return Err(ok.error); }
    r := Ok(data.bytes);
  }

  method SpriteNew(name: string, mode: int, width: int, height: int) returns (r: Result<seq<byte>>)
    ensures r == SpriteNewFrame(name, mode, width, height)
  {
    var data := new ByteArray();
    var ok := data.AddId([SpriteNewId]);
    assert data.bytes == [TagByte(SpriteNewId)];
    ok := data.AddUint(mode, 1);
    if ok.Fail? { return Err(ok.error); }
    ok := data.AddUint(width, 2);
    if ok.Fail? { return Err(ok.error); }
    ok := data.AddUint(height, 2);
    if ok.Fail? { return Err(ok.error); }
    ok := data.AddString(name);
    if ok.Fail? { return Err(ok.error); }
    r := Ok(data.bytes);
  }

  method SpriteOpen(name: string) returns (r: Result<seq<byte>>)
    ensures r == SpriteOpenFrame(name)
  {
    var data := new ByteArray();
    var ok := data.AddId([SpriteOpenId]);
    assert data.bytes == [TagByte(SpriteOpenId)];
    ok := data.AddString(name);
    if ok.Fail? { return Err(ok.error); }
    r := Ok(data.bytes);
  }
}
