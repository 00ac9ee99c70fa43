/**
 * messaging/handle.py and Handlers.process: how an inbound frame is routed
 * by its one-character tag to a handler, parsed from a fresh cursor over the
 * payload after the tag, and executed against the host. Batch frames
 * re-dispatch their sub-frames through the same table, in order.
 */
module Handle {
  import opened Wire
  import opened Results
  import Utf8
  import opened Messaging
  import Encode
  import opened Util

  // ---------------------------------------------------------------------
  // Handlers and their tags

  /** The handler classes of handle.py. */
  datatype Kind = Batch | Image | NewImage | TextureList | ChangeName

  /** Each handler class's `id`. */
  function Tag(k: Kind): (t: string)
    ensures |t| == IdSize && t[0] as int < 0x80
  {
    match k
    case Batch => "["
    case Image => "I"
    case NewImage => "N"
    case TextureList => "L"
    case ChangeName => "C"
  }

  /** No two handlers share a tag, so registering all five never trips the duplicate check. */
  lemma TagsDistinct(a: Kind, b: Kind)
    ensures Tag(a) == Tag(b) <==> a == b
  {
    if a != b {
      assert Tag(a)[0] != Tag(b)[0];
    }
  }

  /** A handler table as Handlers.add builds it: every handler sits under its own id. */
  predicate WellKeyed(reg: map<string, Kind>)
  {
    forall t :: t in reg ==> Tag(reg[t]) == t
  }

  // ---------------------------------------------------------------------
  // Parsing: what each parse() puts into the args namespace

  /** The keyword arguments a handler's parse leaves for its execute. */
  datatype Request =
    | BatchArgs(messages: seq<seq<byte>>)
    | ImageArgs(width: nat, height: nat, name: string, data: seq<byte>)
    | NewImageArgs(width: nat, height: nat, name: string, data: seq<byte>)
    | TextureListArgs
    | ChangeNameArgs(oldName: string, newName: string)

  /** `count` consecutive take_data reads from pos, with the position after them. */
  function DataRun(data: seq<byte>, pos: nat, count: nat): (r: (seq<seq<byte>>, nat))
    ensures |r.0| == count
    ensures forall m :: m in r.0 ==> |m| <= |data|
    decreases count
  {
    if count == 0 then ([], pos)
    else
      var rest := DataRun(data, DataEnd(data, pos), count - 1);
      ([DataAt(data, pos)] + rest.0, rest.1)
  }

  /** Batch.parse: a u16 count, then that many length-prefixed sub-frames. */
  function ReadBatch(data: seq<byte>, pos: nat): (Result<Request>, nat)
  {
    var count := UintAt(data, pos, 2);
    var run := DataRun(data, pos + 2, count);
    (Ok(BatchArgs(run.0)), run.1)
  }

  /** Image.parse (shared by NewImage): u16 width, u16 height, the name, the pixel data. */
  function ReadImage(data: seq<byte>, pos: nat): (Result<(nat, nat, string, seq<byte>)>, nat)
  {
    var width := UintAt(data, pos, 2);
    var height := UintAt(data, pos + 2, 2);
    var afterName := DataEnd(data, pos + 4);
    match StrAt(data, pos + 4)
    case Err(e) => (Err(e), afterName)
    case Ok(name) => (Ok((width, height, name, DataAt(data, afterName))), DataEnd(data, afterName))
  }

  /** ChangeName.parse: the old name, then the new name. */
  function ReadChangeName(data: seq<byte>, pos: nat): (Result<Request>, nat)
  {
    var afterOld := DataEnd(data, pos);
    var afterNew := DataEnd(data, afterOld);
    match StrAt(data, pos)
    case Err(e) => (Err(e), afterOld)
    case Ok(oldName) =>
      match StrAt(data, afterOld)
      case Err(e) => (Err(e), afterNew)
      case Ok(newName) => (Ok(ChangeNameArgs(oldName, newName)), afterNew)
  }

  /**
   * The parse of handler `kind` from pos: the arguments it fills (or the
   * UnicodeDecodeError a name raises) and where the cursor stops.
   * TextureList keeps Handler.parse, which reads nothing.
   */
  function ReadRequest(kind: Kind, data: seq<byte>, pos: nat): (r: (Result<Request>, nat))
    ensures r.0.Err? ==> r.0.error == UnicodeDecodeError && (kind == Image || kind == NewImage || kind == ChangeName)
    ensures r.0.Ok? ==> match kind
      case Batch => r.0.value.BatchArgs? && forall m :: m in r.0.value.messages ==> |m| <= |data|
      case Image => r.0.value.ImageArgs?
      case NewImage => r.0.value.NewImageArgs?
      case TextureList => r.0.value == TextureListArgs && r.1 == pos
      case ChangeName => r.0.value.ChangeNameArgs?
  {
    match kind
    case Batch => ReadBatch(data, pos)
    case Image =>
      var (img, end) := ReadImage(data, pos);
      (if img.Err? then Err(img.error) else Ok(ImageArgs(img.value.0, img.value.1, img.value.2, img.value.3)), end)
    case NewImage =>
      var (img, end) := ReadImage(data, pos);
      (if img.Err? then Err(img.error) else Ok(NewImageArgs(img.value.0, img.value.1, img.value.2, img.value.3)), end)
    case TextureList => (Ok(TextureListArgs), pos)
    case ChangeName => ReadChangeName(data, pos)
  }

  // The parse methods, on the handler's cursor

  /** Batch.parse: the list comprehension of take_data calls. */
  method ParseBatch(c: Cursor) returns (r: Result<Request>)
    modifies c`position
    ensures (r, c.position) == ReadBatch(c.data, old(c.position))
  {
    ghost var data := c.data;
    ghost var whole := DataRun(data, c.position + 2, UintAt(data, c.position, 2));
    var count := c.TakeUint(2);
    var messages: seq<seq<byte>> := [];
    var i := 0;
    while i < count
      invariant 0 <= i <= count && c.data == data
      invariant messages + DataRun(data, c.position, count - i).0 == whole.0
      invariant DataRun(data, c.position, count - i).1 == whole.1
    {
      ghost var run := DataRun(data, DataEnd(data, c.position), count - i - 1);
      assert DataRun(data, c.position, count - i) == ([DataAt(data, c.position)] + run.0, run.1);
      var m := c.TakeData();
      ConcatAssoc(messages, [m], run.0);
      messages := messages + [m];
      i := i + 1;
    }
    assert messages + [] == messages;
    r := Ok(BatchArgs(messages));
  }

  /** Image.parse: size, name, then data; a name that is not UTF-8 raises. */
  method ParseImage(c: Cursor) returns (r: Result<(nat, nat, string, seq<byte>)>)
    modifies c`position
    ensures (r, c.position) == ReadImage(c.data, old(c.position))
  {
    var width := c.TakeUint(2);
    var height := c.TakeUint(2);
    var name := c.TakeStr();
    if name.Err? {
      return Err(name.error);
    }
    var data := c.TakeData();
    r := Ok((width, height, name.value, data));
  }

  /** ChangeName.parse. */
  method ParseChangeName(c: Cursor) returns (r: Result<Request>)
    modifies c`position
    ensures (r, c.position) == ReadChangeName(c.data, old(c.position))
  {
    var oldName := c.TakeStr();
    if oldName.Err? {
      return Err(oldName.error);
    }
    var newName := c.TakeStr();
    if newName.Err? {
      return Err(newName.error);
    }
    r := Ok(ChangeNameArgs(oldName.value, newName.value));
  }

  /** The parse() of handler kind. */
  method Parse(kind: Kind, c: Cursor) returns (r: Result<Request>)
    modifies c`position
    ensures (r, c.position) == ReadRequest(kind, c.data, old(c.position))
  {
    match kind
    case Batch => r := ParseBatch(c);
    case Image =>
      var img := ParseImage(c);
      r := if img.Err? then Err(img.error) else Ok(ImageArgs(img.value.0, img.value.1, img.value.2, img.value.3));
    case NewImage =>
      var img := ParseImage(c);
      r := if img.Err? then Err(img.error) else Ok(NewImageArgs(img.value.0, img.value.1, img.value.2, img.value.3));
    case TextureList => r := Ok(TextureListArgs);
    case ChangeName => r := ParseChangeName(c);
  }

  // Parsing inverts the encoders

  /** The sub-frames a batch payload lists are read back in order, ending at the payload's end. */
  lemma {:induction false} DataRunOfFields(pre: seq<byte>, ms: seq<seq<byte>>)
    requires Encode.AllDataFit(ms)
    ensures DataRun(pre + Encode.DataFields(ms), |pre|, |ms|) == (ms, |pre + Encode.DataFields(ms)|)
    decreases |ms|
  {
    if |ms| > 0 {
      var data := pre + Encode.DataFields(ms);
      var rest := Encode.DataFields(ms[1..]);
      assert Encode.DataFields(ms) == DataField(ms[0]) + rest;
      ConcatAssoc(pre, DataField(ms[0]), rest);
      DataRoundTrip(pre, ms[0], rest);
      assert DataEnd(data, |pre|) == |pre + DataField(ms[0])|;
      DataRunOfFields(pre + DataField(ms[0]), ms[1..]);
      assert [ms[0]] + ms[1..] == ms;
    }
  }

  /** Parsing the payload of the Batch frame the encoder builds yields its sub-frames. */
  lemma BatchRoundTrip(ms: seq<seq<byte>>)
    requires Encode.BatchFrame(ms).Ok?
    ensures |Encode.BatchFrame(ms).value| >= 1
    ensures ReadRequest(Batch, Encode.BatchFrame(ms).value[1..], 0).0 == Ok(BatchArgs(ms))
  {
    var f := Encode.BatchFrame(ms).value;
    var count := LeBytes(|ms|, 2);
    assert f[1..] == count + Encode.DataFields(ms);
    UintRoundTrip([], |ms|, 2, Encode.DataFields(ms));
    assert [] + count + Encode.DataFields(ms) == f[1..];
    DataRunOfFields(count, ms);
  }

  /** Parsing the payload of an Image frame yields the size, name and pixels encoded. */
  lemma ImageRoundTrip(name: string, width: nat, height: nat, pixels: seq<byte>)
    requires Encode.ImageFrame(name, width, height, pixels).Ok?
    ensures |Encode.ImageFrame(name, width, height, pixels).value| >= 1
    ensures ReadRequest(Image, Encode.ImageFrame(name, width, height, pixels).value[1..], 0).0
         == Ok(ImageArgs(width, height, name, pixels))
    ensures ReadRequest(NewImage, Encode.ImageFrame(name, width, height, pixels).value[1..], 0).0
         == Ok(NewImageArgs(width, height, name, pixels))
  {
    Encode.ImagePayloadRoundTrip(name, width, height, pixels);
  }

  /** A ChangeName payload of two string fields is read as (old name, new name). */
  lemma ChangeNameRoundTrip(oldName: string, newName: string)
    requires StrFits(oldName) && StrFits(newName)
    ensures ReadRequest(ChangeName, StrField(oldName) + StrField(newName), 0).0
         == Ok(ChangeNameArgs(oldName, newName))
  {
    var a := StrField(oldName);
    var b := StrField(newName);
    var f := a + b;
    assert [] + a == a;
    StrRoundTrip([], oldName, b);
    assert StrAt(f, 0) == Ok(oldName) && DataEnd(f, 0) == |a|;
    assert f + [] == f;
    StrRoundTrip(a, newName, []);
    assert StrAt(f, |a|) == Ok(newName);
  }

  // ---------------------------------------------------------------------
  // Executing: Image and NewImage

  /** The result of a handler, as process observes it. */
  datatype Status =
    | Handled            // the handler ran to completion
    | Unhandled          // no handler for the tag: logged and dropped
    | Raised(error: Error)

  function ToStatus(o: Outcome): (s: Status)
    ensures s.Raised? <==> o.Fail?
    ensures o.Fail? ==> s.error == o.error
  {
    if o.Pass? then Handled else Raised(o.error)
  }

  /**
   * Image.execute as written. With the UI unlocked update_image runs, and when
   * it raises, the bare except runs it a second time, letting that one's
   * exception escape. With the UI locked the positional report call raises
   * ValueError (Host.ReportPositional), so the except runs update_image anyway:
   * nothing is reported and the image is updated.
   */
  function ImageExecute(st: HostState, w: nat, h: nat, name: string, px: seq<byte>): (r: (HostState, Outcome))
    ensures r.0.locked == st.locked && r.0.socket == st.socket && r.0.sent == st.sent
    ensures r.0.reports == st.reports && |r.0.images| == |st.images|
    ensures h > 0 && |px| % h == 0 ==>
      r == (st.(images := UpdateImageSpec(st.images, w, h, name, px).0), Pass)
    ensures st.locked ==>
      r == (st.(images := UpdateImageSpec(st.images, w, h, name, px).0), UpdateImageSpec(st.images, w, h, name, px).1)
    ensures FirstMatch(st.images, name).None? ==> r.0.images == st.images && r.1 == Pass
    ensures r.1.Fail? ==> r.1.error == (if h == 0 then ZeroDivisionError else ValueError)
  {
    var (first, o) := if st.locked then (st.images, Fail(ValueError)) else UpdateImageSpec(st.images, w, h, name, px);
    if o.Pass? then (st.(images := first), Pass)
    else
      var (second, o2) := UpdateImageSpec(first, w, h, name, px);
      (st.(images := second), o2)
  }

  /**
   * Image.execute as its else branch intends it: with the UI locked the
   * update is skipped and the warning is reported; otherwise it runs as
   * written.
   */
  function ImageExecuteIntended(st: HostState, w: nat, h: nat, name: string, px: seq<byte>): (r: (HostState, Outcome))
    ensures st.locked ==> r.0.images == st.images && r.0.reports == st.reports + [LockedWarning] && r.1 == Pass
    ensures r.0.locked == st.locked && r.0.socket == st.socket && r.0.sent == st.sent
    ensures !st.locked ==> r == ImageExecute(st, w, h, name, px)
  {
    if st.locked then (st.(reports := st.reports + [LockedWarning]), Pass)
    else ImageExecute(st, w, h, name, px)
  }

  /**
   * The discrepancy: under a locked UI the image that matches is overwritten
   * with the flipped pixels as written, where the intended handler leaves
   * every image as it was; the two differ whenever the pixels change.
   */
  lemma LockedImageStillUpdated(st: HostState, w: nat, h: nat, name: string, px: seq<byte>)
    requires st.locked && FirstMatch(st.images, name).Some?
    requires h > 0 && |px| % h == 0
    ensures ImageExecute(st, w, h, name, px).0.images[FirstMatch(st.images, name).value].pixels == FlipRows(px, h)
    ensures ImageExecuteIntended(st, w, h, name, px).0.images == st.images
    ensures st.images[FirstMatch(st.images, name).value].pixels != FlipRows(px, h) ==>
      ImageExecute(st, w, h, name, px) != ImageExecuteIntended(st, w, h, name, px)
  {
  }

  /** Preparing an image twice is preparing it once. */
  lemma PreparedIdempotent(img: ImageRecord, w: nat, h: nat)
    ensures Prepared(Prepared(img, w, h), w, h) == Prepared(img, w, h)
  {
  }

  /** Replacing the first match by a record that still matches keeps it the first match. */
  lemma {:induction false} FirstMatchStable(images: seq<ImageRecord>, name: string, i: nat, rec: ImageRecord)
    requires FirstMatch(images, name) == Some(i)
    requires Matches(rec, name)
    ensures FirstMatch(images[i := rec], name) == Some(i)
    decreases |images|
  {
    if i > 0 {
      assert !Matches(images[0], name);
      assert images[i := rec][1..] == images[1..][i - 1 := rec];
      FirstMatchStable(images[1..], name, i - 1, rec);
    }
  }

  /**
   * The retry of Image.execute is harmless when the image matched by its
   * source or its datablock name: the second run finds the same image, which
   * is already prepared, and fails in the same way without changing anything.
   */
  lemma RetryChangesNothing(st: HostState, w: nat, h: nat, name: string, px: seq<byte>)
    requires !st.locked && FirstMatch(st.images, name).Some?
    requires !(h > 0 && |px| % h == 0)
    requires st.images[FirstMatch(st.images, name).value].sbSource == name
          || st.images[FirstMatch(st.images, name).value].name == name
    ensures ImageExecute(st, w, h, name, px)
         == (st.(images := UpdateImageSpec(st.images, w, h, name, px).0), Fail(if h == 0 then ZeroDivisionError else ValueError))
  {
    var i := FirstMatch(st.images, name).value;
    var first := UpdateImageSpec(st.images, w, h, name, px).0;
    var img := Prepared(st.images[i], w, h);
    assert first == st.images[i := img];
    FirstMatchStable(st.images, name, i, img);
    PreparedIdempotent(st.images[i], w, h);
    assert first[i := Prepared(first[i], w, h)] == first;
  }

  /**
   * NewImage.execute: a packed placeholder named after the path's last
   * component, with the full path as its source, is appended (whether or not
   * an image of that name exists), then Image.execute runs.
   */
  function NewImageExecute(st: HostState, w: nat, h: nat, name: string, px: seq<byte>): (r: (HostState, Outcome))
    ensures |r.0.images| == |st.images| + 1
    ensures r.0.locked == st.locked && r.0.socket == st.socket && r.0.sent == st.sent && r.0.reports == st.reports
    ensures r.1.Fail? ==> r.1.error == (if h == 0 then ZeroDivisionError else ValueError)
  {
    var created := st.(images := st.images + [NewPackedImage(name, w, h)]);
    ImageExecute(created, w, h, name, px)
  }

  /** An update leaves alone every image it does not find first. */
  lemma UpdateKeepsOthers(images: seq<ImageRecord>, w: nat, h: nat, name: string, px: seq<byte>, j: nat)
    requires j < |images| && FirstMatch(images, name) != Some(j)
    ensures UpdateImageSpec(images, w, h, name, px).0[j] == images[j]
  {
  }

  /** A failing update leaves an image that is already at size (w, h) as it is. */
  lemma UpdateFailKeepsPrepared(images: seq<ImageRecord>, w: nat, h: nat, name: string, px: seq<byte>, j: nat)
    requires j < |images| && Prepared(images[j], w, h) == images[j]
    requires !(h > 0 && |px| % h == 0)
    ensures UpdateImageSpec(images, w, h, name, px).0[j] == images[j]
  {
  }

  /** Every update, and so Image.execute, keeps each image's source and datablock name. */
  lemma ImageExecuteKeepsIdentity(st: HostState, w: nat, h: nat, name: string, px: seq<byte>, j: nat)
    requires j < |st.images|
    ensures j < |ImageExecute(st, w, h, name, px).0.images|
    ensures ImageExecute(st, w, h, name, px).0.images[j].sbSource == st.images[j].sbSource
    ensures ImageExecute(st, w, h, name, px).0.images[j].name == st.images[j].name
  {
    var (first, o) := if st.locked then (st.images, Fail(ValueError)) else UpdateImageSpec(st.images, w, h, name, px);
    assert first[j].sbSource == st.images[j].sbSource && first[j].name == st.images[j].name;
    if o.Fail? {
      var second := UpdateImageSpec(first, w, h, name, px).0;
      assert second[j].sbSource == first[j].sbSource && second[j].name == first[j].name;
    }
  }

  /**
   * The new record is what the update reaches unless an image listed before
   * it matches the name: then the placeholder stays as created. Either way it
   * keeps the full path as its source and the last path component as its name.
   */
  lemma NewImageTarget(st: HostState, w: nat, h: nat, name: string, px: seq<byte>)
    ensures FirstMatch(st.images, name).Some? ==>
      NewImageExecute(st, w, h, name, px).0.images[|st.images|] == NewPackedImage(name, w, h)
    ensures FirstMatch(st.images, name).None? && h > 0 && |px| % h == 0 ==>
      NewImageExecute(st, w, h, name, px).0.images[|st.images|].pixels == FlipRows(px, h)
    ensures NewImageExecute(st, w, h, name, px).0.images[|st.images|].sbSource == name
    ensures NewImageExecute(st, w, h, name, px).0.images[|st.images|].name == Basename(name)
  {
    var rec := NewPackedImage(name, w, h);
    var created := st.(images := st.images + [rec]);
    var last := |st.images|;
    assert Matches(rec, name) && created.images[last] == rec;
    ImageExecuteKeepsIdentity(created, w, h, name, px, last);
    if FirstMatch(st.images, name).Some? {
      var i := FirstMatch(st.images, name).value;
      assert created.images[..last] == st.images;
      assert FirstMatch(created.images, name) == Some(i);
      var (first, o) := if st.locked then (created.images, Fail(ValueError)) else UpdateImageSpec(created.images, w, h, name, px);
      if !st.locked {
        UpdateKeepsOthers(created.images, w, h, name, px, last);
      }
      assert first[last] == rec;
      if o.Fail? {
        if FirstMatch(first, name) == Some(last) {
          assert !st.locked;
          UpdateFailKeepsPrepared(first, w, h, name, px, last);
        } else {
          UpdateKeepsOthers(first, w, h, name, px, last);
        }
      }
    } else {
      assert forall j :: 0 <= j < last ==> !Matches(created.images[j], name);
      var k := FirstMatch(created.images, name);
      assert k.Some? && IsFirstMatch(created.images, name, k.value);
      assert k.value == last;
    }
  }

  /**
   * NewImage.execute raises exactly when the pixels do not cut into h rows:
   * the placeholder always matches by its source, so the update, and its
   * retry, always find an image.
   */
  lemma NewImageOutcome(st: HostState, w: nat, h: nat, name: string, px: seq<byte>)
    ensures NewImageExecute(st, w, h, name, px).1 == Pass <==> h > 0 && |px| % h == 0
  {
    var rec := NewPackedImage(name, w, h);
    var created := st.(images := st.images + [rec]);
    var last := |st.images|;
    assert Matches(created.images[last], name);
    assert FirstMatch(created.images, name).Some?;
    if !(h > 0 && |px| % h == 0) && !st.locked {
      var first := UpdateImageSpec(created.images, w, h, name, px).0;
      assert first[last].sbSource == name;
      assert Matches(first[last], name);
      assert FirstMatch(first, name).Some?;
    }
  }

  // ---------------------------------------------------------------------
  // Executing: ChangeName

  /** `re.search(r"\.(?:png|jpg|jpeg|bmp|tga)$", s)`: `$` also matches before a final newline. */
  predicate HasImageExt(s: string)
  {
    EndsWithExt(s) || (|s| > 0 && s[|s| - 1] == '\n' && EndsWithExt(s[..|s| - 1]))
  }

  predicate EndsWithExt(s: string)
  {
    HasSuffix(s, ".png") || HasSuffix(s, ".jpg") || HasSuffix(s, ".jpeg")
    || HasSuffix(s, ".bmp") || HasSuffix(s, ".tga")
  }

  predicate HasSuffix(s: string, suffix: string)
  {
    |suffix| <= |s| && s[|s| - |suffix|..] == suffix
  }

  /** The extension test is case sensitive and allows one trailing newline. */
  lemma HasImageExtCases(stem: string)
    ensures HasImageExt(stem + ".png") && HasImageExt(stem + ".jpeg")
    ensures HasImageExt(stem + ".tga\n")
    ensures !HasImageExt("sprite.PNG") && !HasImageExt("sprite.aseprite")
  {
    var s := stem + ".tga\n";
    assert s[..|s| - 1] == stem + ".tga";
    assert (stem + ".tga")[|stem + ".tga"| - 4..] == ".tga";
    assert (stem + ".png")[|stem + ".png"| - 4..] == ".png";
    assert (stem + ".jpeg")[|stem + ".jpeg"| - 5..] == ".jpeg";
  }

  /** One matched image after the rename: the new source, and the new name as path only if it looks like an image file. */
  function RenameRecord(img: ImageRecord, newName: string): (r: ImageRecord)
    ensures r.sbSource == newName
    ensures r.filepath == (if HasImageExt(newName) then newName else "")
    ensures r.name == img.name && r.pixels == img.pixels && r.packed == img.packed
    ensures r.hasData == img.hasData && r.width == img.width && r.height == img.height
  {
    img.(sbSource := newName, filepath := if HasImageExt(newName) then newName else "")
  }

  /** The images whose source, path or name is oldName, renamed; the others as they were. */
  function RenamedImages(images: seq<ImageRecord>, oldName: string, newName: string): (r: seq<ImageRecord>)
    ensures |r| == |images|
    ensures forall j :: 0 <= j < |images| ==>
      r[j] == if Matches(images[j], oldName) then RenameRecord(images[j], newName) else images[j]
  {
    seq(|images|, j requires 0 <= j < |images| =>
      if Matches(images[j], oldName) then RenameRecord(images[j], newName) else images[j])
  }

  /** How many of the images match name. */
  function CountMatches(images: seq<ImageRecord>, name: string): (n: nat)
    ensures n <= |images|
    ensures n == 0 <==> forall j :: 0 <= j < |images| ==> !Matches(images[j], name)
  {
    if |images| == 0 then 0
    else (if Matches(images[0], name) then 1 else 0) + CountMatches(images[1..], name)
  }

  /**
   * The loop of ChangeName.execute from image i on. The wait for the UI lock
   * before it leaves on its first pass, because the report it calls raises
   * and the bare except around the wait swallows that, so the loop runs
   * whether or not the UI is locked. Each matching image is
   * renamed and the texture list is broadcast right after it; an encoding
   * error of a broadcast escapes and ends the loop.
   */
  function RenameFrom(paths: Paths, st: HostState, i: nat, oldName: string, newName: string): (r: (HostState, Outcome))
    requires i <= |st.images|
    ensures |r.0.images| == |st.images|
    ensures r.0.locked == st.locked && r.0.socket == st.socket && r.0.reports == st.reports
    ensures !st.socket ==> r.0.sent == st.sent
    ensures r.1.Fail? ==> r.1.error == OverflowError
    decreases |st.images| - i
  {
    if i == |st.images| then (st, Pass)
    else if Matches(st.images[i], oldName) then
      var renamed := st.(images := st.images[i := RenameRecord(st.images[i], newName)]);
      var (sent, o) := BroadcastSpec(paths, renamed);
      if o.Fail? then (sent, o)
      else RenameFrom(paths, sent, i + 1, oldName, newName)
    else RenameFrom(paths, st, i + 1, oldName, newName)
  }

  /**
   * From image i on, when every broadcast goes through: the images before i
   * are kept, those from i on that match are renamed, and one list frame per
   * match is sent.
   */
  lemma {:induction false} RenameFromEffect(paths: Paths, st: HostState, i: nat, oldName: string, newName: string)
    requires i <= |st.images|
    requires RenameFrom(paths, st, i, oldName, newName).1.Pass?
    ensures forall j :: 0 <= j < i ==> RenameFrom(paths, st, i, oldName, newName).0.images[j] == st.images[j]
    ensures forall j :: i <= j < |st.images| ==>
      RenameFrom(paths, st, i, oldName, newName).0.images[j]
      == if Matches(st.images[j], oldName) then RenameRecord(st.images[j], newName) else st.images[j]
    ensures st.socket ==>
      |RenameFrom(paths, st, i, oldName, newName).0.sent| == |st.sent| + CountMatches(st.images[i..], oldName)
    decreases |st.images| - i
  {
    if i < |st.images| {
      var next := st;
      if Matches(st.images[i], oldName) {
        var renamed := st.(images := st.images[i := RenameRecord(st.images[i], newName)]);
        next := BroadcastSpec(paths, renamed).0;
        assert BroadcastSpec(paths, renamed).1.Pass?;
        assert st.socket ==> |next.sent| == |st.sent| + 1;
      }
      assert RenameFrom(paths, st, i, oldName, newName) == RenameFrom(paths, next, i + 1, oldName, newName);
      RenameFromEffect(paths, next, i + 1, oldName, newName);
      assert st.images[i..][1..] == st.images[i + 1..];
      assert next.images[i + 1..] == st.images[i + 1..];
    }
  }

  /**
   * ChangeName.execute: when every broadcast goes
   * through, exactly the matching images are renamed and one list frame per
   * match is sent.
   */
  lemma RenameEffect(paths: Paths, st: HostState, oldName: string, newName: string)
    ensures RenameFrom(paths, st, 0, oldName, newName).1.Pass? ==>
      RenameFrom(paths, st, 0, oldName, newName).0.images == RenamedImages(st.images, oldName, newName)
    ensures RenameFrom(paths, st, 0, oldName, newName).1.Pass? && st.socket ==>
      |RenameFrom(paths, st, 0, oldName, newName).0.sent| == |st.sent| + CountMatches(st.images, oldName)
  {
    var r := RenameFrom(paths, st, 0, oldName, newName);
    if r.1.Pass? {
      RenameFromEffect(paths, st, 0, oldName, newName);
      assert r.0.images[0..] == r.0.images;
      assert st.images[0..] == st.images;
    }
  }

  /** Renaming twice with the same names renames once. */
  lemma RenameIdempotent(images: seq<ImageRecord>, oldName: string, newName: string)
    ensures RenamedImages(RenamedImages(images, oldName, newName), oldName, newName)
         == RenamedImages(images, oldName, newName)
  {
    var once := RenamedImages(images, oldName, newName);
    var twice := RenamedImages(once, oldName, newName);
    forall j | 0 <= j < |images|
      ensures twice[j] == once[j]
    {
      if Matches(images[j], oldName) {
        assert twice[j] == RenameRecord(once[j], newName) || twice[j] == once[j];
      }
    }
  }

  /**
   * A rename whose old and new names are equal is not the identity: an image
   * found by its datablock name but whose source is another file takes the
   * name as its source and path, and so is listed under a different name.
   */
  lemma RenameSameNameChangesIdentity(paths: Paths)
    ensures var img := ImageRecord("sprite.png", "", "other.ase", true, true, 1, 1, [0]);
      && Matches(img, "sprite.png")
      && ListName(paths, img) == "other.ase"
      && ListName(paths, RenameRecord(img, "sprite.png")) == "sprite.png"
      && RenameRecord(img, "sprite.png").filepath == "sprite.png"
      && RenamedImages([img], "sprite.png", "sprite.png") != [img]
  {
    var img := ImageRecord("sprite.png", "", "other.ase", true, true, 1, 1, [0]);
    var n := "sprite.png";
    assert n[|n| - 4..] == ".png";
    assert RenamedImages([img], n, n)[0] == RenameRecord(img, n);
  }

  // ---------------------------------------------------------------------
  // Handlers.process and Batch.execute

  /**
   * Handlers.process on one frame: the first byte is decoded as the tag
   * (a byte that is not UTF-8 raises; an empty frame gives ""), an
   * unregistered tag is dropped, otherwise the handler parses the rest of the
   * frame from position 0 and executes. Batch sub-frames are bounded by the
   * payload, which makes the recursion through Batch terminate.
   */
  function Dispatch(reg: map<string, Kind>, paths: Paths, st: HostState, frame: seq<byte>): (r: (HostState, Status))
    requires WellKeyed(reg)
    ensures r.1 == Unhandled <==> FrameTag(frame).Ok? && FrameTag(frame).value !in reg
    ensures r.1 == Unhandled ==> r.0 == st
    decreases |frame|, 0, 0
  {
    match FrameTag(frame)
    case Err(e) => (st, Raised(e))
    case Ok(id) =>
      if id !in reg then (st, Unhandled)
      else
        FrameTagShape(frame);
        var payload := frame[IdSize..];
        match ReadRequest(reg[id], payload, 0).0
        case Err(e) => (st, Raised(e))
        case Ok(req) => Execute(reg, paths, st, req, |payload|)
  }

  /** The execute() the arguments belong to. */
  function Execute(reg: map<string, Kind>, paths: Paths, st: HostState, req: Request, bound: nat): (r: (HostState, Status))
    requires WellKeyed(reg)
    requires req.BatchArgs? ==> forall m :: m in req.messages ==> |m| <= bound
    ensures r.1 != Unhandled
    decreases bound, 2, 0
  {
    match req
    case BatchArgs(messages) => RunBatch(reg, paths, st, messages, bound)
    case ImageArgs(w, h, name, data) =>
      var (s, o) := ImageExecute(st, w, h, name, data);
      (s, ToStatus(o))
    case NewImageArgs(w, h, name, data) =>
      var (s, o) := NewImageExecute(st, w, h, name, data);
      (s, ToStatus(o))
    case TextureListArgs =>
      var (s, o) := BroadcastSpec(paths, st);
      (s, ToStatus(o))
    case ChangeNameArgs(oldName, newName) =>
      var (s, o) := RenameFrom(paths, st, 0, oldName, newName);
      (s, ToStatus(o))
  }

  /** Batch.execute: each sub-frame is processed to completion before the next; an exception ends the batch. */
  function RunBatch(reg: map<string, Kind>, paths: Paths, st: HostState, ms: seq<seq<byte>>, bound: nat): (r: (HostState, Status))
    requires WellKeyed(reg)
    requires forall m :: m in ms ==> |m| <= bound
    ensures r.1 != Unhandled
    decreases bound, 1, |ms|
  {
    if |ms| == 0 then (st, Handled)
    else
      var (s, status) := Dispatch(reg, paths, st, ms[0]);
      if status.Raised? then (s, status)
      else RunBatch(reg, paths, s, ms[1..], bound)
  }

  /** A frame whose tag has no handler changes nothing. */
  lemma UnknownTagIgnored(reg: map<string, Kind>, paths: Paths, st: HostState, frame: seq<byte>)
    requires WellKeyed(reg)
    requires FrameTag(frame).Ok? && FrameTag(frame).value !in reg
    ensures Dispatch(reg, paths, st, frame) == (st, Unhandled)
  {
  }

  /** An empty frame decodes to the empty tag, which no handler has. */
  lemma EmptyFrameIgnored(reg: map<string, Kind>, paths: Paths, st: HostState)
    requires WellKeyed(reg)
    ensures Dispatch(reg, paths, st, []) == (st, Unhandled)
  {
    FrameTagShape([]);
  }

  /** A registered tag routes the payload after it, read from position 0, to its handler. */
  lemma RegisteredTagRoutes(reg: map<string, Kind>, paths: Paths, st: HostState, frame: seq<byte>)
    requires WellKeyed(reg)
    requires |frame| >= 1 && frame[0] < 0x80 && [frame[0] as char] in reg
    ensures ReadRequest(reg[[frame[0] as char]], frame[1..], 0).0.Ok? ==>
      Dispatch(reg, paths, st, frame)
      == Execute(reg, paths, st, ReadRequest(reg[[frame[0] as char]], frame[1..], 0).0.value, |frame| - 1)
    ensures ReadRequest(reg[[frame[0] as char]], frame[1..], 0).0.Err? ==>
      Dispatch(reg, paths, st, frame) == (st, Raised(UnicodeDecodeError))
  {
    FrameTagShape(frame);
  }

  /** The bound only serves termination: any two admissible bounds give the same run. */
  lemma {:induction false} RunBatchAnyBound(reg: map<string, Kind>, paths: Paths, st: HostState, ms: seq<seq<byte>>, b1: nat, b2: nat)
    requires WellKeyed(reg)
    requires forall m :: m in ms ==> |m| <= b1 && |m| <= b2
    ensures RunBatch(reg, paths, st, ms, b1) == RunBatch(reg, paths, st, ms, b2)
    decreases |ms|
  {
    if |ms| > 0 {
      var (s, status) := Dispatch(reg, paths, st, ms[0]);
      if !status.Raised? {
        RunBatchAnyBound(reg, paths, s, ms[1..], b1, b2);
      }
    }
  }

  /** Running a + b is running a, then, unless it raised, b from where a left the host. */
  lemma {:induction false} RunBatchAppend(reg: map<string, Kind>, paths: Paths, st: HostState, a: seq<seq<byte>>, b: seq<seq<byte>>, bound: nat)
    requires WellKeyed(reg)
    requires forall m :: m in a + b ==> |m| <= bound
    ensures forall m :: m in a ==> |m| <= bound
    ensures forall m :: m in b ==> |m| <= bound
    ensures RunBatch(reg, paths, st, a + b, bound)
         == (var (s, status) := RunBatch(reg, paths, st, a, bound);
             if status.Raised? then (s, status) else RunBatch(reg, paths, s, b, bound))
    decreases |a|
  {
    assert forall m :: m in a ==> m in a + b;
    assert forall m :: m in b ==> m in a + b;
    if |a| == 0 {
      assert a + b == b;
    } else {
      assert (a + b)[0] == a[0];
      assert (a + b)[1..] == a[1..] + b;
      var (s, status) := Dispatch(reg, paths, st, a[0]);
      if !status.Raised? {
        RunBatchAppend(reg, paths, s, a[1..], b, bound);
      }
    }
  }

  /**
   * With "[" registered for Batch, the frame the Batch encoder builds
   * processes its sub-frames in order through the same table.
   */
  lemma BatchFrameDispatch(reg: map<string, Kind>, paths: Paths, st: HostState, ms: seq<seq<byte>>)
    requires WellKeyed(reg) && "[" in reg
    requires Encode.BatchFrame(ms).Ok?
    ensures forall m :: m in ms ==> |m| < |Encode.BatchFrame(ms).value|
    ensures Dispatch(reg, paths, st, Encode.BatchFrame(ms).value)
         == RunBatch(reg, paths, st, ms, |Encode.BatchFrame(ms).value| - 1)
  {
    var f := Encode.BatchFrame(ms).value;
    BatchRoundTrip(ms);
    assert reg["["] == Batch by {
      assert Tag(reg["["]) == "[";
      TagsDistinct(reg["["], Batch);
    }
    FrameTagShape(f);
    assert FrameTag(f) == Ok("[");
    assert forall m :: m in ms ==> |m| <= |f[1..]|;
  }

  /** A batch of one frame has that frame's effect on the host. */
  lemma BatchOfOne(reg: map<string, Kind>, paths: Paths, st: HostState, m: seq<byte>)
    requires WellKeyed(reg) && "[" in reg
    requires Encode.BatchFrame([m]).Ok?
    ensures Dispatch(reg, paths, st, Encode.BatchFrame([m]).value).0 == Dispatch(reg, paths, st, m).0
    ensures Dispatch(reg, paths, st, Encode.BatchFrame([m]).value).1
         == if Dispatch(reg, paths, st, m).1.Raised? then Dispatch(reg, paths, st, m).1 else Handled
  {
    BatchFrameDispatch(reg, paths, st, [m]);
    var bound := |Encode.BatchFrame([m]).value| - 1;
    assert [m][1..] == [];
  }

  // The imperative handlers, against the host object

  /** Image.execute on the host: the try block, then the bare except's update_image. */
  method ExecuteImage(host: Host, w: nat, h: nat, name: string, px: seq<byte>) returns (o: Outcome)
    modifies host
    ensures (host.State(), o) == ImageExecute(old(host.State()), w, h, name, px)
  {
    if !host.locked {
      o := host.UpdateImage(w, h, name, px);
    } else {
      o := host.ReportPositional("WARNING", LockedWarning);
    }
    if o.Fail? {
      o := host.UpdateImage(w, h, name, px);
    }
  }

  /** The body of ChangeName.execute's if: sb_source, then filepath, of image i. */
  method RenameImage(host: Host, i: nat, newName: string)
    requires i < |host.images|
    modifies host
    ensures host.State() == old(host.State()).(images := old(host.images)[i := RenameRecord(old(host.images)[i], newName)])
  {
    var img := host.images[i];
    host.images := host.images[i := img.(sbSource := newName)];
    if HasImageExt(newName) {
      host.images := host.images[i := host.images[i].(filepath := newName)];
    } else {
      host.images := host.images[i := host.images[i].(filepath := "")];
    }
    assert host.images[i] == RenameRecord(img, newName);
  }

  /** The loop of ChangeName.execute on the host. */
  method Rename(host: Host, oldName: string, newName: string) returns (o: Outcome)
    modifies host
    ensures (host.State(), o) == RenameFrom(host.paths, old(host.State()), 0, oldName, newName)
  {
    var i := 0;
    while i < |host.images|
      invariant 0 <= i <= |host.images|
      invariant RenameFrom(host.paths, host.State(), i, oldName, newName)
             == RenameFrom(host.paths, old(host.State()), 0, oldName, newName)
      decreases |host.images| - i
    {
      ghost var st := host.State();
      var img := host.images[i];
      if oldName == img.sbSource || oldName == img.filepath || oldName == img.name {
        RenameImage(host, i, newName);
        o := host.Broadcast();
        if o.Fail? {
          return;
        }
      }
      i := i + 1;
    }
    o := Pass;
  }

  /**
   * Handlers.process: decode the tag, look the handler up, parse the payload
   * after the tag from a fresh cursor, then execute.
   */
  method Process(reg: Registry<Kind>, host: Host, frame: seq<byte>) returns (status: Status)
    requires WellKeyed(reg.messages)
    modifies host
    ensures (host.State(), status) == Dispatch(reg.messages, host.paths, old(host.State()), frame)
    decreases |frame|, 0
  {
    var id := Utf8.Decode(Slice(frame, 0, IdSize));
    if id.Err? {
      return Raised(id.error);
    }
    if id.value !in reg.messages {
      return Unhandled;
    }
    var kind := reg.messages[id.value];
    FrameTagShape(frame);
    var c := new Cursor(frame[IdSize..]);
    var args := Parse(kind, c);
    if args.Err? {
      return Raised(args.error);
    }
    status := ExecuteArgs(reg, host, args.value, |frame| - IdSize);
  }

  /** msg.execute(**args), with Batch.execute's loop over the sub-frames. */
  method ExecuteArgs(reg: Registry<Kind>, host: Host, req: Request, bound: nat) returns (status: Status)
    requires WellKeyed(reg.messages)
    requires req.BatchArgs? ==> forall m :: m in req.messages ==> |m| <= bound
    modifies host
    ensures (host.State(), status) == Execute(reg.messages, host.paths, old(host.State()), req, bound)
    decreases bound, 1
  {
    match req
    case BatchArgs(messages) =>
      var i := 0;
      while i < |messages|
        invariant 0 <= i <= |messages|
        invariant forall m :: m in messages[i..] ==> m in messages
        invariant RunBatch(reg.messages, host.paths, host.State(), messages[i..], bound)
               == RunBatch(reg.messages, host.paths, old(host.State()), messages, bound)
      {
        assert messages[i..][0] == messages[i] && messages[i..][1..] == messages[i + 1..];
        var s := Process(reg, host, messages[i]);
        if s.Raised? {
          return s;
        }
        i := i + 1;
      }
      status := Handled;
    case ImageArgs(w, h, name, data) =>
      var o := ExecuteImage(host, w, h, name, data);
      status := ToStatus(o);
    case NewImageArgs(w, h, name, data) =>
      host.CreateImage(name, w, h);
      var o := ExecuteImage(host, w, h, name, data);
      status := ToStatus(o);
    case TextureListArgs =>
      var o := host.Broadcast();
      status := ToStatus(o);
    case ChangeNameArgs(oldName, newName) =>
      if host.locked {
        // the wait loop's first report raises, and its bare except swallows that
        var waited := host.ReportPositional("WARNING", WaitingWarning);
      }
      var o := Rename(host, oldName, newName);
      status := ToStatus(o);
  }
}
