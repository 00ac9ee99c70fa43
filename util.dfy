/**
 * util.py and the host objects it works on: image records standing for
 * bpy.data.images, the resource name used on the wire (image_name), the
 * search and pixel write of update_image, and the texture-list broadcast.
 */
module Util {
  import opened Wire
  import opened Results
  import Encode

  /** os.path.isabs and bpy.path.abspath, which depend on the host: left uninterpreted. */
  datatype Paths = Paths(isAbs: string -> bool, absPath: string -> string)

  /** The fields of a Blender image that the core reads or writes. */
  datatype ImageRecord = ImageRecord(
    name: string,        // the datablock name
    filepath: string,    // the on-disk path, "" when none
    sbSource: string,    // the add-on's own source property
    packed: bool,        // image.packed_file is set
    hasData: bool,       // image.has_data
    width: nat,
    height: nat,
    pixels: seq<byte>)   // the pixel buffer, as bytes (before the /255 scaling)

  // ---------------------------------------------------------------------
  // Resource identity

  /** image_name: sb_source, else an unpacked image's path made absolute, else "". */
  function ImageName(paths: Paths, img: ImageRecord): string
  {
    if img.sbSource != "" then img.sbSource
    else if !img.packed && img.filepath != "" then
      (if paths.isAbs(img.filepath) then img.filepath else paths.absPath(img.filepath))
    else ""
  }

  /** `image_name(img) or img.name`: the name an image is listed under. */
  function ListName(paths: Paths, img: ImageRecord): string
  {
    var n := ImageName(paths, img);
    if n != "" then n else img.name
  }

  /** The names of all images, in collection order. */
  function ListNames(paths: Paths, images: seq<ImageRecord>): (names: seq<string>)
    ensures |names| == |images|
    ensures forall i :: 0 <= i < |images| ==> names[i] == ListName(paths, images[i])
  {
    seq(|images|, i requires 0 <= i < |images| => ListName(paths, images[i]))
  }

  lemma ImageNamePrefersSource(paths: Paths, img: ImageRecord)
    requires img.sbSource != ""
    ensures ImageName(paths, img) == img.sbSource
  {
  }

  /**
   * Without a source, an unpacked image with a path is named by that path,
   * made absolute unless it is absolute already; when abspath always yields an
   * absolute path, the name is absolute.
   */
  lemma ImageNameFromPath(paths: Paths, img: ImageRecord)
    requires img.sbSource == "" && !img.packed && img.filepath != ""
    ensures paths.isAbs(img.filepath) ==> ImageName(paths, img) == img.filepath
    ensures !paths.isAbs(img.filepath) ==> ImageName(paths, img) == paths.absPath(img.filepath)
    ensures (forall p :: paths.isAbs(paths.absPath(p))) ==> paths.isAbs(ImageName(paths, img))
  {
    if !paths.isAbs(img.filepath) {
      assert paths.isAbs(paths.absPath(img.filepath)) <== (forall p :: paths.isAbs(paths.absPath(p)));
    }
  }

  /**
   * The name is "" exactly for an image without source that is packed or has
   * no path, provided abspath does not turn its path into "".
   */
  lemma ImageNameEmpty(paths: Paths, img: ImageRecord)
    requires paths.absPath(img.filepath) != ""
    ensures ImageName(paths, img) == "" <==> img.sbSource == "" && (img.packed || img.filepath == "")
  {
  }

  // ---------------------------------------------------------------------
  // update_image: the search

  /** The test of update_image's loop: source, path or datablock name equals the wire name. */
  predicate Matches(img: ImageRecord, name: string)
  {
    img.sbSource == name || name == img.filepath || name == img.name
  }

  ghost predicate IsFirstMatch(images: seq<ImageRecord>, name: string, i: nat)
  {
    i < |images| && Matches(images[i], name) && forall j :: 0 <= j < i ==> !Matches(images[j], name)
  }

  /** The first image, in collection order, that matches name. */
  function FirstMatch(images: seq<ImageRecord>, name: string): (r: Option<nat>)
    ensures r.Some? ==> IsFirstMatch(images, name, r.value)
    ensures r.None? <==> forall j :: 0 <= j < |images| ==> !Matches(images[j], name)
  {
    if |images| == 0 then None
    else if Matches(images[0], name) then Some(0)
    else match FirstMatch(images[1..], name)
      case None => None
      case Some(k) => Some(k + 1)
  }

  /** The for/break/else search of update_image. */
  method FindImage(images: seq<ImageRecord>, name: string) returns (found: Option<nat>)
    ensures found.Some? ==> IsFirstMatch(images, name, found.value)
    ensures found.None? ==> forall j :: 0 <= j < |images| ==> !Matches(images[j], name)
    ensures found == FirstMatch(images, name)
  {
    var i := 0;
    while i < |images|
      invariant 0 <= i <= |images|
      invariant forall j :: 0 <= j < i ==> !Matches(images[j], name)
    {
      if Matches(images[i], name) {
        return Some(i);
      }
      i := i + 1;
    }
    return None;
  }

  // ---------------------------------------------------------------------
  // The vertical flip of the pixel buffer

  /** The buffer cut into h rows of k elements each. */
  function Rows(px: seq<byte>, h: nat, k: nat): (rows: seq<seq<byte>>)
    requires |px| == h * k
    ensures |rows| == h
    ensures forall i :: 0 <= i < h ==> |rows[i]| == k
    decreases h
  {
    if h == 0 then [] else [px[..k]] + Rows(px[k..], h - 1, k)
  }

  function Flatten(rows: seq<seq<byte>>): seq<byte>
  {
    if |rows| == 0 then [] else rows[0] + Flatten(rows[1..])
  }

  function Reverse<T>(s: seq<T>): (r: seq<T>)
    ensures |r| == |s|
    ensures forall i :: 0 <= i < |s| ==> r[i] == s[|s| - 1 - i]
  {
    seq(|s|, i requires 0 <= i < |s| => s[|s| - 1 - i])
  }

  /** pixels.shape = (h, size // h); pixels[::-1, :].ravel() */
  function FlipRows(px: seq<byte>, h: nat): seq<byte>
    requires h > 0 && |px| % h == 0
  {
    Flatten(Reverse(Rows(px, h, |px| / h)))
  }

  lemma {:induction false} FlattenRows(px: seq<byte>, h: nat, k: nat)
    requires |px| == h * k
    ensures Flatten(Rows(px, h, k)) == px
    decreases h
  {
    if h > 0 {
      FlattenRows(px[k..], h - 1, k);
      assert px[..k] + px[k..] == px;
    }
  }

  lemma {:induction false} FlattenLength(rows: seq<seq<byte>>, h: nat, k: nat)
    requires |rows| == h && forall i :: 0 <= i < h ==> |rows[i]| == k
    ensures |Flatten(rows)| == h * k
    decreases h
  {
    if h > 0 {
      FlattenLength(rows[1..], h - 1, k);
      MulPred(h, k);
    }
  }

  lemma MulPred(h: nat, k: nat)
    requires h > 0
    ensures h * k == k + (h - 1) * k
  {
  }

  lemma {:induction false} RowsOfFlatten(rows: seq<seq<byte>>, h: nat, k: nat)
    requires |rows| == h && forall i :: 0 <= i < h ==> |rows[i]| == k
    ensures |Flatten(rows)| == h * k
    ensures Rows(Flatten(rows), h, k) == rows
    decreases h
  {
    FlattenLength(rows, h, k);
    if h > 0 {
      var tail := rows[1..];
      FlattenLength(tail, h - 1, k);
      RowsOfFlatten(tail, h - 1, k);
      var f := Flatten(rows);
      assert f == rows[0] + Flatten(tail);
      assert f[..k] == rows[0];
      assert f[k..] == Flatten(tail);
      assert Rows(f, h, k) == [rows[0]] + Rows(Flatten(tail), h - 1, k);
      assert [rows[0]] + tail == rows;
    }
  }

  lemma ReverseReverse<T>(s: seq<T>)
    ensures Reverse(Reverse(s)) == s
  {
  }

  /**
   * The flip keeps the length, and row i of the result is row h-1-i of the
   * input: a row permutation.
   */
  lemma FlipRowsReversesRows(px: seq<byte>, h: nat)
    requires h > 0 && |px| % h == 0
    ensures |FlipRows(px, h)| == |px|
    ensures Rows(FlipRows(px, h), h, |px| / h) == Reverse(Rows(px, h, |px| / h))
    ensures forall i :: 0 <= i < h ==>
      Rows(FlipRows(px, h), h, |px| / h)[i] == Rows(px, h, |px| / h)[h - 1 - i]
  {
    var k := |px| / h;
    RowsOfFlatten(Reverse(Rows(px, h, k)), h, k);
  }

  /** Flipping twice gives the buffer back. */
  lemma FlipRowsInvolutive(px: seq<byte>, h: nat)
    requires h > 0 && |px| % h == 0
    ensures |FlipRows(px, h)| % h == 0
    ensures FlipRows(FlipRows(px, h), h) == px
  {
    var k := |px| / h;
    FlipRowsReversesRows(px, h);
    ReverseReverse(Rows(px, h, k));
    FlattenRows(px, h, k);
  }

  // ---------------------------------------------------------------------
  // update_image: the write

  /**
   * The record after update_image's if/elif: an image without data is loaded
   * with a (w, h) placeholder and packed, one whose size differs is scaled to
   * (w, h); otherwise it stays as it is. The pixel values the placeholder or
   * the scaling produce are not modelled: the buffer is kept until the write.
   */
  function Prepared(img: ImageRecord, w: nat, h: nat): (r: ImageRecord)
    ensures r.width == w && r.height == h && r.hasData
    ensures r.name == img.name && r.sbSource == img.sbSource && r.pixels == img.pixels
    ensures img.hasData ==> r.filepath == img.filepath && r.packed == img.packed
    ensures img.hasData && img.width == w && img.height == h ==> r == img
    ensures !img.hasData ==> r.packed && r.filepath == ""
  {
    if !img.hasData then img.(hasData := true, packed := true, filepath := "", width := w, height := h)
    else if img.width != w || img.height != h then img.(width := w, height := h)
    else img
  }

  /**
   * update_image(w, h, name, pixels): the first matching image is prepared,
   * then the buffer is reshaped to h rows (ZeroDivisionError when h is 0,
   * ValueError when the length is not a multiple of h; both after the resize)
   * and stored with its rows reversed. No match: nothing changes.
   */
  function UpdateImageSpec(images: seq<ImageRecord>, w: nat, h: nat, name: string, px: seq<byte>)
    : (r: (seq<ImageRecord>, Outcome))
    ensures |r.0| == |images|
    ensures FirstMatch(images, name).None? ==> r == (images, Pass)
    ensures FirstMatch(images, name).Some? ==>
      var i := FirstMatch(images, name).value;
      && (forall j :: 0 <= j < |images| && j != i ==> r.0[j] == images[j])
      && r.0[i].width == w && r.0[i].height == h
      && r.0[i].name == images[i].name && r.0[i].sbSource == images[i].sbSource
      && (r.1 == Pass <==> h > 0 && |px| % h == 0)
      && (r.1 == Pass ==> r.0[i].pixels == FlipRows(px, h))
      && (r.1.Fail? ==> r.0[i].pixels == images[i].pixels)
    ensures r.1.Fail? ==> r.1.error == (if h == 0 then ZeroDivisionError else ValueError)
  {
    match FirstMatch(images, name)
    case None => (images, Pass)
    case Some(i) =>
      var img := Prepared(images[i], w, h);
      if h == 0 then (images[i := img], Fail(ZeroDivisionError))
      else if |px| % h != 0 then (images[i := img], Fail(ValueError))
      else (images[i := img.(pixels := FlipRows(px, h))], Pass)
  }

  /** A matched image whose data is there and whose size is (w, h) is not resized. */
  lemma NoResizeWhenSizeMatches(images: seq<ImageRecord>, w: nat, h: nat, name: string, px: seq<byte>)
    requires FirstMatch(images, name).Some?
    requires images[FirstMatch(images, name).value].hasData
    requires images[FirstMatch(images, name).value].width == w
    requires images[FirstMatch(images, name).value].height == h
    requires h > 0 && |px| % h == 0
    ensures UpdateImageSpec(images, w, h, name, px).0
         == images[FirstMatch(images, name).value := images[FirstMatch(images, name).value].(pixels := FlipRows(px, h))]
  {
  }

  // ---------------------------------------------------------------------
  // NewImage's placeholder

  /** os.path.split(p)[1] with POSIX separators: what follows the last '/'. */
  function Basename(p: string): (r: string)
    ensures |r| <= |p| && p[|p| - |r|..] == r
    ensures '/' !in r
    ensures |r| < |p| ==> p[|p| - |r| - 1] == '/'
  {
    if |p| == 0 then ""
    else if p[|p| - 1] == '/' then ""
    else Basename(p[..|p| - 1]) + [p[|p| - 1]]
  }

  /** new_packed_image(basename(name), w, h) with sb_source then set to name. */
  function NewPackedImage(name: string, w: nat, h: nat): (img: ImageRecord)
    ensures img.sbSource == name && img.name == Basename(name)
    ensures img.filepath == "" && img.packed && img.hasData
    ensures img.width == w && img.height == h
  {
    ImageRecord(Basename(name), "", name, true, true, w, h, [])
  }

  // ---------------------------------------------------------------------
  // The host

  /** What the core can observe of the host and the connection. */
  datatype HostState = HostState(
    images: seq<ImageRecord>,   // bpy.data.images, in collection order
    locked: bool,               // window_manager.is_interface_locked
    socket: bool,               // Server._ws is set, the only test of send; it stays set once a client
                                // has connected, unlike Addon.Server.connected (set and not closed)
    sent: seq<seq<byte>>,       // frames handed to the websocket, in order
    reports: seq<string>)       // warnings reported to the user, in order

  const LockedWarning: string := "UI is locked, image update skipped"
  const WaitingWarning: string := "UI is locked, waiting to update image source.."

  /**
   * The texture_list operator: the list frame of every image's name is sent,
   * or dropped when no socket exists; encoding can raise OverflowError.
   */
  function BroadcastSpec(paths: Paths, st: HostState): (r: (HostState, Outcome))
    ensures r.0.images == st.images && r.0.locked == st.locked && r.0.socket == st.socket
    ensures r.0.reports == st.reports
    ensures r.1.Pass? <==> Encode.TextureListFrame(ListNames(paths, st.images)).Ok?
    ensures r.1.Pass? && st.socket ==>
      r.0.sent == st.sent + [Encode.TextureListFrame(ListNames(paths, st.images)).value]
    ensures r.1.Fail? || !st.socket ==> r.0.sent == st.sent
  {
    match Encode.TextureListFrame(ListNames(paths, st.images))
    case Err(e) => (st, Fail(e))
    case Ok(f) => (if st.socket then st.(sent := st.sent + [f]) else st, Pass)
  }

  /** bpy.data, the window manager and the server's send, as the handlers use them. */
  class Host {
    var images: seq<ImageRecord>
    var locked: bool
    var socket: bool
    var sent: seq<seq<byte>>
    var reports: seq<string>
    const paths: Paths

    constructor (paths: Paths, images: seq<ImageRecord>, locked: bool, socket: bool)
      ensures this.paths == paths && this.images == images && this.locked == locked
      ensures this.socket == socket && sent == [] && reports == []
    {
      this.paths := paths;
      this.images := images;
      this.locked := locked;
      this.socket := socket;
      sent := [];
      reports := [];
    }

    function State(): HostState
      reads this
    {
      HostState(images, locked, socket, sent, reports)
    }

    /** util.update_image. */
    method UpdateImage(w: nat, h: nat, name: string, px: seq<byte>) returns (r: Outcome)
      modifies this
      ensures (images, r) == UpdateImageSpec(old(images), w, h, name, px)
      ensures locked == old(locked) && socket == old(socket)
      ensures sent == old(sent) && reports == old(reports)
    {
      var found := FindImage(images, name);
      if found.None? {
        assert UpdateImageSpec(images, w, h, name, px) == (images, Pass);
        return Pass;
      }
      var i := found.value;
      var img := images[i];
      if !img.hasData {
        img := img.(hasData := true, packed := true, filepath := "", width := w, height := h);
      } else if img.width != w || img.height != h {
        img := img.(width := w, height := h);
      }
      assert img == Prepared(images[i], w, h);
      images := images[i := img];
      if h == 0 {
        assert UpdateImageSpec(old(images), w, h, name, px) == (images, Fail(ZeroDivisionError));
        return Fail(ZeroDivisionError);
      }
      if |px| % h != 0 {
        assert UpdateImageSpec(old(images), w, h, name, px) == (images, Fail(ValueError));
        return Fail(ValueError);
      }
      images := images[i := img.(pixels := FlipRows(px, h))];
      assert images == old(images)[i := img.(pixels := FlipRows(px, h))];
      r := Pass;
    }

    /** The texture_list operator: encode every image's name and send the frame. */
    method Broadcast() returns (r: Outcome)
      modifies this
      ensures (State(), r) == BroadcastSpec(paths, old(State()))
    {
      var msg := Encode.TextureList(ListNames(paths, images));
      if msg.Err? {
        return Fail(msg.error);
      }
      if socket {
        sent := sent + [msg.value];
      }
      r := Pass;
    }

    /**
     * The report operator called with its keyword properties (message_type,
     * message): the warning is logged.
     */
    method Warn(message: string)
      modifies this
      ensures State() == old(State()).(reports := old(reports) + [message])
    {
      reports := reports + [message];
    }

    /**
     * The report operator called as handle.py calls it, with the level set and
     * the message as positional arguments. An operator call accepts only a
     * context override, an execution context and an undo flag positionally; a
     * set is none of them, so the call raises ValueError before the operator
     * runs, and nothing is reported.
     */
    method ReportPositional(level: string, message: string) returns (r: Outcome)
      ensures r.Fail? && r.error == ValueError
    {
      r := Fail(ValueError);
    }

    /** new_packed_image(short, w, h) followed by `img.sb_source = name`. */
    method CreateImage(name: string, w: nat, h: nat)
      modifies this
      ensures State() == old(State()).(images := old(images) + [NewPackedImage(name, w, h)])
    {
      var short := Basename(name);
      var img := ImageRecord(short, "", "", true, true, w, h, []);
      images := images + [img];
      images := images[|images| - 1 := images[|images| - 1].(sbSource := name)];
    }
  }
}
