# pribambase wire protocol, in Dafny

pribambase links Blender to Aseprite over a WebSocket. Both sides exchange
binary frames. Each frame is a one-character tag followed by fields:

- little-endian unsigned integers of 1, 2 or 4 bytes;
- booleans, stored as one byte;
- *data*: a 4-byte length and then that many bytes;
- *strings*: data holding UTF-8.

This project models the parts of the Blender add-on that build and read those frames:

- the field codec, `Handler.take_*` and the `add_*` functions (`messaging/__init__.py`);
- the six outbound frame builders (`messaging/encode.py`);
- the handler table and `Handlers.process`;
- the five inbound handlers (`messaging/handle.py`): `Batch`, `Image`, `NewImage`, `TextureList`, `ChangeName`;
- the resource naming and image update of `util.py`;
- the server slot and handler registration of `addon.py`.

Modules, one per source file or concern:

- `Results`: the outcome types. A Python exception becomes `Err`/`Fail` with the exception's class.
- `Wire`: bytes, little-endian value and encoding, and Python's clamping slice `s[a:b]`.
- `Utf8`: strict UTF-8 encoding and decoding (`str.encode()`, `str(b, 'utf-8')`), with the round trip.
- `Messaging`:
  - the field layouts, and the readers as functions of (payload, position);
  - the `Cursor` class: a handler's `_data`/`_position` with the `take_*` methods;
  - the `ByteArray` class: the `bytearray` that `add_*` extends;
  - the `Registry` class: `Handlers._messages` and `add`.
- `Encode`: a specification function per frame builder, and a method per builder that grows a fresh `ByteArray` as the source does.
- `Util`: image records, `image_name`, the search of `update_image`, the resize decision and the vertical row flip. It also has the `Host` class: `bpy.data.images`, the UI lock, the socket's sent frames and the reported warnings.
- `Handle`:
  - parse specifications and cursor methods for each handler;
  - execute specifications for each handler;
  - `Dispatch`/`Execute`/`RunBatch`: `Handlers.process` with `Batch`'s recursive re-dispatch, as mutually recursive functions;
  - the imperative `Process`/`ExecuteArgs`/`Rename`/`ExecuteImage`, each proved equal to its specification.
- `Addon`: the `Addon` class with its server slot, and `Load`, which is the module-level registration.

Design decisions:

- **Short reads are not errors.** `take_uint` and `take_data` never check lengths. A read past the end yields the bytes that are there, because Python slicing clamps. `Wire.Slice` models this clamp exactly, so every reader is total.
- **A fresh `Cursor` per parse.** `Handler._parse` resets `_position` to 0 and rebinds `_data` before every `parse`. A new cursor over the payload is therefore the same as re-using the handler's one.
- **Handlers are values.** A handler kind is a `Handle.Kind`. Its arguments namespace is a `Handle.Request`. `Execute` routes the arguments to the kind's `execute`.
- **Batch termination.** A `Batch` sub-frame is a slice of the payload, so it is no longer than the payload; `Handle.ReadRequest` states this. The measure of `Dispatch`/`RunBatch` is built on that bound. `Handle.RunBatchAnyBound` shows the bound does not affect the result.
- **Host paths.** `os.path.isabs` and `bpy.path.abspath` are uninterpreted functions in `Util.Paths`. `os.path.split` is taken with POSIX separators (`Util.Basename`).
- **Host operators.**
  - The `texture_list` operator is `Util.BroadcastSpec`. It sends the list frame when a client socket exists and drops it otherwise, as `Server.send` does.
  - The report operator, called with its keyword properties, appends to `reports` (`Util.Host.Warn`). The handlers call it with positional arguments instead; that call raises before the operator runs (`Util.Host.ReportPositional`, and "## Findings").
  - An image's pixel content after the placeholder load or the `scale` is not modelled; only its size and flags are.

Behaviour of the code that a reader might not expect:

- `NewImage` creates a new packed image every time, even when an image of that name exists. `Handle.NewImageTarget` shows that the new placeholder is then left untouched when an image listed before it matches; the model lists the placeholder last (see "## Left out").
- `Handlers.add` asserts that the handler has an `id` and that the id is not registered yet. It does not check that the id is one character. Every tag in use has one character (`Handle.Tag`); a handler here always has an id, so only the duplicate assertion is modelled.
- A rename whose old and new names are equal is not the identity: an image found by its datablock name but sourced from another file is listed under a different name afterwards (`Handle.RenameSameNameChangesIdentity`).
- Neither handler waits for a locked UI. Both call the report operator with positional arguments, which raises ValueError, and both catch that with a bare `except`. `Image` then runs `update_image` anyway, and `ChangeName` leaves its wait loop on the first pass and renames.
- The extension test `re.search(r"\.(?:png|jpg|jpeg|bmp|tga)$", …)` accepts one trailing newline, because Python's `$` matches before a final `\n`. It is case-sensitive (`Handle.HasImageExtCases`).

## Model

| member | source | states |
|---|---|---|
| Wire.LeValue | messaging/__init__.py:56-59 | `int.from_bytes(..., 'little', signed=False)`, the value every take_uint returns; its properties are Wire.LeRoundTrip, Wire.LeValueBound and Wire.LeBytesOfValue |
| Wire.LeBytes | messaging/__init__.py:142-143 | `int.to_bytes(n, 'little')` of a value below 256^n gives exactly n bytes |
| Wire.LeRoundTrip | messaging/__init__.py:53-59 | reading little-endian the n bytes written for v gives v back |
| Wire.LeValueBound | messaging/__init__.py:53-59 | the little-endian value of k bytes is below 256^k |
| Wire.LeBytesOfValue | messaging/__init__.py:53-59 | encoding the value of k bytes in k bytes gives the same bytes: the codec is a bijection |
| Wire.Slice | messaging/__init__.py:57 | Python's clamping slice: the exact slice when in range, a shorter (possibly empty) one past the end, never longer than asked or than the input |
| Utf8.Encode | messaging/__init__.py:156 | `str.encode('utf-8')`: each character's encoding, in order |
| Utf8.EncodeChar | messaging/__init__.py:156 | a code point encodes to 1 to 4 bytes, a single byte exactly for ASCII |
| Utf8.DecodeFirst | messaging/__init__.py:80 | a decoded sequence consumes 1 to 4 bytes |
| Utf8.Decode | messaging/__init__.py:80 | `str(b, 'utf-8')` fails only with UnicodeDecodeError and never yields more characters than bytes |
| Utf8.DecodeFirstOfEncodeChar | messaging/__init__.py:78-80 | the first character decoded from an encoded character is that character, with its full length |
| Utf8.RoundTrip | messaging/__init__.py:155-158 | decoding the UTF-8 encoding of any string gives the string back |
| Utf8.EncodedLength | messaging/__init__.py:156-157 | a string's UTF-8 length is at least its character count, and equal exactly when it is all ASCII: the length prefix counts bytes |
| Utf8.AsciiChar | messaging/__init__.py:133-135 | an ASCII character encodes to the single byte of its code |
| Utf8.DecodeOneByte | messaging/__init__.py:118 | a one-byte tag decodes iff the byte is below 0x80, to that character |
| Messaging.UintFits | messaging/__init__.py:142-143 | the range `to_bytes(size, signed=False)` accepts, 0 <= v < 256^size; outside it add_uint raises OverflowError (Messaging.ByteArray.AddUint) |
| Messaging.SintFits | messaging/__init__.py:146-147 | the range `to_bytes(size, signed=True)` accepts, -2^(8·size-1) <= v < 2^(8·size-1) for size > 0, and only 0 for size 0; outside it add_sint raises OverflowError (Messaging.ByteArray.AddSint) |
| Messaging.BoolBytes | messaging/__init__.py:138-139 | add_bool: the one byte 1 or 0; read back by Messaging.BoolRoundTrip |
| Messaging.SintBytes | messaging/__init__.py:146-147 | `to_bytes(n, signed=True)` of a value in range gives exactly n bytes |
| Messaging.DataField | messaging/__init__.py:150-152 | a data field is 4 length bytes plus the data |
| Messaging.StrField | messaging/__init__.py:155-158 | a string field is 4 length bytes plus the UTF-8 bytes |
| Messaging.UintAtInRange | messaging/__init__.py:53-59 | with n bytes left, take_uint(n) is the little-endian value of exactly those bytes, below 256^n |
| Messaging.UintAtPastEnd | messaging/__init__.py:53-59 | a take_uint starting past the end reads 0: the slice is empty |
| Messaging.UintRoundTrip | messaging/__init__.py:142-143 | take_uint(n) at the position where add_uint(v, n) wrote returns v, whatever surrounds it |
| Messaging.BoolRoundTrip | messaging/__init__.py:49-50 | take_bool after add_bool returns the boolean written (messaging/__init__.py:138-139) |
| Messaging.DataRoundTrip | messaging/__init__.py:71-75 | take_data at an add_data field returns exactly the data and ends 4 + len later (messaging/__init__.py:150-152) |
| Messaging.StrRoundTrip | messaging/__init__.py:78-80 | take_str at an add_string field returns the string and ends 4 + its UTF-8 length later (messaging/__init__.py:155-158) |
| Messaging.SintRoundTripAsWritten | messaging/__init__.py:62-68 | take_sint after add_sint(v, n) gives v mod 256^n, which is v + 256^n for negative v (messaging/__init__.py:146-147) |
| Messaging.SintMinusOneReadsBack255 | messaging/__init__.py:62-68 | add_sint(-1, 1) followed by take_sint(1) yields 255 |
| Messaging.SintRoundTrip | messaging/__init__.py:146-147 | the signed decode reads back every value add_sint accepts |
| Messaging.FrameTagShape | messaging/__init__.py:118 | an empty frame has tag ""; otherwise the tag decodes iff the first byte is ASCII, to that one character |
| Messaging.UintAt | messaging/__init__.py:53-59 | take_uint: the little-endian value of the n bytes at pos, clamped at the end of the data |
| Messaging.DataEnd | messaging/__init__.py:73-74 | where take_data leaves the cursor: past the prefix and the declared length |
| Messaging.DataAt | messaging/__init__.py:71-75 | take_data: never longer than the declared length or the data |
| Messaging.StrAt | messaging/__init__.py:78-80 | take_str: the data decoded as UTF-8, failing only with UnicodeDecodeError |
| Messaging.SintAt | messaging/__init__.py:62-68 | the signed decode that take_sint's docstring promises; Messaging.SintRoundTrip proves it inverts add_sint |
| Messaging.FrameTag | messaging/__init__.py:118 | `str(frame[:ID_SIZE], 'utf-8')`: at most one character, failing only with UnicodeDecodeError |
| Messaging.Cursor.constructor | messaging/__init__.py:83-87 | `_parse` binds the payload and rewinds the cursor to 0 |
| Messaging.Cursor.TakeUint | messaging/__init__.py:53-59 | advances by exactly n and returns the value of the (clamped) n bytes |
| Messaging.Cursor.TakeBool | messaging/__init__.py:49-50 | advances by one and is true iff the byte is nonzero |
| Messaging.Cursor.TakeSint | messaging/__init__.py:62-68 | advances by n and returns the same unsigned value take_uint would |
| Messaging.Cursor.TakeData | messaging/__init__.py:71-75 | advances past the length and the data, returning the data read |
| Messaging.Cursor.TakeStr | messaging/__init__.py:78-80 | like TakeData, then returns the strict UTF-8 decoding (or its error) |
| Messaging.ByteArray.constructor | messaging/encode.py:26 | a new bytearray is empty |
| Messaging.ByteArray.AddId | messaging/__init__.py:133-135 | a tag that is not one character fails the assertion and appends nothing; otherwise its UTF-8 bytes are appended |
| Messaging.ByteArray.AddBool | messaging/__init__.py:138-139 | appends the byte 1 or 0 |
| Messaging.ByteArray.AddUint | messaging/__init__.py:142-143 | appends v in n little-endian bytes, or raises OverflowError and appends nothing when v is negative or at least 256^n |
| Messaging.ByteArray.AddSint | messaging/__init__.py:146-147 | appends v mod 256^n in n bytes, or raises OverflowError outside the two's-complement range |
| Messaging.ByteArray.AddData | messaging/__init__.py:150-152 | appends the 4-byte length then the data, or raises OverflowError for data of 4 GiB or more |
| Messaging.ByteArray.AddString | messaging/__init__.py:155-158 | appends the UTF-8 byte length then the UTF-8 bytes, or raises OverflowError |
| Messaging.Registry.constructor | messaging/__init__.py:99-100 | a new table is empty |
| Messaging.Registry.Add | messaging/__init__.py:103-113 | a tag already registered fails the assertion and leaves the table unchanged; otherwise the handler is added under it |
| Encode.TagByte | messaging/__init__.py:133-135 | an ASCII tag is encoded as one byte |
| Encode.BatchFrame | messaging/encode.py:25-33 | the batch frame exists iff the count fits in 16 bits and every message's length fits; it starts with `[` |
| Encode.TextureListFrame | messaging/encode.py:36-43 | the list frame exists iff every name fits, starts with `L`, and for no images is just `L`; its layout is read back by Encode.TextureListRoundTrip |
| Encode.UvMapFrame | messaging/encode.py:46-55 | the frame starts with `M` and the opacity byte and has the exact length of its fields; it fails with OverflowError iff a field does not fit; its layout is read back by Encode.UvMapRoundTrip |
| Encode.ImageFrame | messaging/encode.py:58-65 | the frame starts with `I` and has the exact length of its fields; its layout is read back by Encode.ImagePayloadRoundTrip |
| Encode.SpriteNewFrame | messaging/encode.py:68-75 | the frame starts with `S` and the mode byte and has the exact length of its fields; its layout is read back by Encode.SpriteNewRoundTrip |
| Encode.SpriteOpenFrame | messaging/encode.py:78-82 | the frame is `O` and a string field: 1 + 4 + the UTF-8 length of the name |
| Encode.StrRun | messaging/__init__.py:78-80 | `count` take_str reads in a row give `count` strings, or fail with UnicodeDecodeError |
| Encode.StrRunCons | messaging/__init__.py:78-80 | a decoded string followed by a decoded run is a decoded run one longer |
| Encode.StrRunOfFields | messaging/__init__.py:155-158 | string fields written back to back are read back by take_str in order, ending at the end of the data |
| Encode.StrRunOfFieldsStep | messaging/__init__.py:155-158 | reading the first field and then the rest as a run reads all of them |
| Encode.TextureListRoundTrip | messaging/encode.py:36-43 | the names of a texture_list frame are the string fields from position 1 to the end of the frame: no count field, in order |
| Encode.HeaderRoundTrip | messaging/encode.py:46-50 | after a tag byte, a u8 and two u16 fields are read back at positions 1, 2 and 4 |
| Encode.TailRoundTrip | messaging/encode.py:51-53 | two string fields and a data field are read back in order and fill the rest of the frame |
| Encode.SizeRoundTrip | messaging/encode.py:60-61 | two u16 fields are read back at pos and pos + 2 |
| Encode.StrDataRoundTrip | messaging/encode.py:62-63 | a string field then a data field are read back in order and fill the rest of the frame |
| Encode.ImagePayloadRoundTrip | messaging/encode.py:58-65 | the payload of an image frame reads back as width, height, name and pixels |
| Encode.UvMapRoundTrip | messaging/encode.py:46-55 | a uv_map frame reads back as opacity, width, height, layer, sprite and pixels at their positions, filling the frame |
| Encode.SpriteNewRoundTrip | messaging/encode.py:68-75 | a sprite_new frame reads back as mode, width, height and name, filling the frame |
| Encode.SpriteOpenRoundTrip | messaging/encode.py:78-82 | a sprite_open frame reads back as its name, filling the frame |
| Encode.DataFields | messaging/encode.py:30-31 | the bytes batch's loop of add_data writes, one data field per message in order; extended one message at a time by Encode.DataFieldsSnoc |
| Encode.StrFields | messaging/encode.py:40-41 | the bytes texture_list's loop of add_string writes, one string field per name in order; read back by Encode.StrRunOfFields |
| Encode.DataFieldsSnoc | messaging/encode.py:30-31 | one more loop iteration appends one more data field |
| Encode.StrFieldsSnoc | messaging/encode.py:40-41 | one more loop iteration appends one more string field |
| Encode.Batch | messaging/encode.py:25-33 | the loop of add_data calls builds exactly BatchFrame, or raises as it does |
| Encode.TextureList | messaging/encode.py:36-43 | the loop of add_string calls builds exactly TextureListFrame |
| Encode.UvMap | messaging/encode.py:46-55 | the appends build exactly UvMapFrame |
| Encode.Image | messaging/encode.py:58-65 | the appends build exactly ImageFrame |
| Encode.SpriteNew | messaging/encode.py:68-75 | the appends build exactly SpriteNewFrame |
| Encode.SpriteOpen | messaging/encode.py:78-82 | the appends build exactly SpriteOpenFrame |
| Util.ImageName | util.py:37-46 | `image_name`: sb_source, else an unpacked image's path made absolute, else ""; its properties are the three lemmas below |
| Util.ListName | sync.py:166 | `image_name(img) or img.name` for one image |
| Util.Matches | util.py:67 | the search test: sb_source, filepath or datablock name equals the wire name |
| Util.ListNames | sync.py:166 | the list holds `image_name(img) or img.name` for each image, in collection order |
| Util.ImageNamePrefersSource | util.py:40-41 | a non-empty sb_source is the name |
| Util.ImageNameFromPath | util.py:43-44 | without sb_source, an unpacked image with a path is named by that path, made absolute unless already absolute |
| Util.ImageNameEmpty | util.py:37-46 | the name is "" exactly when there is no sb_source and the image is packed or has no path, when abspath does not map the image's path to "" |
| Util.FirstMatch | util.py:66-69 | the first image, in collection order, whose sb_source, filepath or name equals the wire name; none iff no image matches |
| Util.FindImage | util.py:66-72 | the for/break/else loop finds exactly FirstMatch |
| Util.Rows | util.py:95 | reshaping to h rows gives h rows of equal length |
| Util.Reverse | util.py:96 | element i of the reversal is element n-1-i |
| Util.FlattenRows | util.py:95 | reshaping and then flattening gives the buffer back |
| Util.RowsOfFlatten | util.py:95-96 | cutting a flattened list of equal rows gives the rows back |
| Util.ReverseReverse | util.py:96 | reversing twice is the identity |
| Util.FlipRows | util.py:94-96 | `pixels.shape = (h, size // h)` then `pixels[::-1, :]`, flattened; its properties are the two lemmas below |
| Util.FlipRowsReversesRows | util.py:94-96 | the flip keeps the length, and its row i is input row h-1-i |
| Util.FlipRowsInvolutive | util.py:94-96 | flipping twice gives the buffer back |
| Util.Prepared | util.py:77-90 | an image without data gets a packed (w, h) placeholder and loses its path; one of another size is scaled; one of size (w, h) stays as it is |
| Util.UpdateImageSpec | util.py:62-105 | no match changes nothing; a match changes only that image, which gets size (w, h) and the row-flipped buffer; h = 0 raises ZeroDivisionError and a length not divisible by h raises ValueError, both after the resize |
| Util.NoResizeWhenSizeMatches | util.py:89-90 | an image with data of size (w, h) only gets its pixels replaced |
| Util.Basename | messaging/handle.py:71 | the result is the part of the path after its last '/' |
| Util.NewPackedImage | messaging/handle.py:71-73 | the placeholder is packed, pathless, of size (w, h), named by the basename, with the full name as sb_source |
| Util.BroadcastSpec | sync.py:165-170 | the texture_list operator sends the list frame when a socket exists, drops it otherwise, and raises what encoding raises; nothing but `sent` changes |
| Util.Host.constructor | util.py:66 | the host as the add-on finds it: images, lock, socket, nothing sent or reported yet |
| Util.Host.UpdateImage | util.py:62-109 | update_image on the host: the images and outcome are UpdateImageSpec's; nothing else changes |
| Util.Host.Broadcast | sync.py:165-170 | the operator's effect is BroadcastSpec's |
| Util.Host.Warn | util.py:112-123 | the report operator with its keyword properties appends one warning and changes nothing else |
| Util.Host.ReportPositional | messaging/handle.py:60 | the report call with the level and message passed positionally raises ValueError and reports nothing |
| Util.Host.CreateImage | messaging/handle.py:71-73 | appends the NewPackedImage record and changes nothing else |
| Handle.Tag | messaging/handle.py:34-87 | each handler's id is one ASCII character |
| Handle.TagsDistinct | addon.py:85-89 | two handlers have the same tag iff they are the same handler |
| Handle.DataRun | messaging/handle.py:38 | `count` take_data reads give `count` sub-frames, none longer than the payload |
| Handle.ReadRequest | messaging/__init__.py:126 | each handler's parse fills its own argument kind; only a name can fail, with UnicodeDecodeError; sub-frames are bounded by the payload; TextureList reads nothing |
| Handle.ReadBatch | messaging/handle.py:36-38 | Batch.parse: a u16 count, then that many take_data reads |
| Handle.ReadImage | messaging/handle.py:49-52 | Image.parse: u16 width, u16 height, the name, then the pixel data; a bad name raises before the data is read |
| Handle.ReadChangeName | messaging/handle.py:89-91 | ChangeName.parse: the old name, then the new name |
| Handle.ParseBatch | messaging/handle.py:36-38 | the comprehension of take_data calls reads exactly ReadBatch's sub-frames and stops where it does |
| Handle.ParseImage | messaging/handle.py:49-52 | reads width, height, name and data as ReadImage does, stopping after a bad name |
| Handle.ParseChangeName | messaging/handle.py:89-91 | reads old name then new name as ReadChangeName does |
| Handle.Parse | messaging/__init__.py:126 | the parse of each handler kind is ReadRequest's |
| Handle.DataRunOfFields | messaging/handle.py:36-38 | reading the data fields the batch encoder writes gives back the sub-frames, ending at the end of the payload |
| Handle.BatchRoundTrip | messaging/handle.py:36-38 | Batch.parse of encode.batch(ms)'s payload gives ms, in order (messaging/encode.py:25-33) |
| Handle.ImageRoundTrip | messaging/handle.py:49-52 | Image.parse and NewImage's shared parse invert encode.image (messaging/encode.py:58-65) |
| Handle.ChangeNameRoundTrip | messaging/handle.py:89-91 | two string fields are read as old name then new name |
| Handle.ToStatus | messaging/__init__.py:127 | a handler that raised is reported as raised with its error |
| Handle.ImageExecute | messaging/handle.py:54-63 | as written: nothing is ever reported; locked, the report raises and the except runs the update once, its error escaping; unlocked, the update runs and, if it raises, runs once more; well-shaped pixels always give exactly one update; no match changes nothing |
| Handle.ImageExecuteIntended | messaging/handle.py:57-60 | as intended: locked, no image changes, the warning is reported and nothing is raised; unlocked, as written |
| Handle.LockedImageStillUpdated | messaging/handle.py:57-63 | under a locked UI the matching image gets the flipped pixels as written, while the intended handler leaves the images as they were; the two differ whenever the pixels change |
| Handle.RetryChangesNothing | messaging/handle.py:61-63 | when the matched image is found by source or name, the retry in the except clause fails the same way and changes nothing further |
| Handle.NewImageExecute | messaging/handle.py:70-74 | NewImage always adds one image, reports nothing, and raises only the update's errors |
| Handle.NewImageTarget | messaging/handle.py:70-74 | the new image keeps the full name as source and the basename as name; it is the one updated only when no image listed before it matches |
| Handle.NewImageOutcome | messaging/handle.py:70-74 | NewImage raises exactly when the pixels do not cut into h rows, because the placeholder always matches |
| Handle.ImageExecuteKeepsIdentity | messaging/handle.py:54-63 | Image.execute never changes an image's source or datablock name |
| Handle.HasImageExt | messaging/handle.py:109 | `re.search(r"\.(?:png|jpg|jpeg|bmp|tga)$", s)`, with `$` also matching before a final newline |
| Handle.HasImageExtCases | messaging/handle.py:109 | the extension test accepts lower-case extensions with an optional trailing newline, and rejects upper case |
| Handle.RenameRecord | messaging/handle.py:107-112 | the new name becomes sb_source, and becomes filepath only when it has an image extension, else filepath is "" |
| Handle.RenamedImages | messaging/handle.py:105-112 | exactly the images with old_name among (sb_source, filepath, name) are renamed |
| Handle.CountMatches | messaging/handle.py:106 | counts the matching images; zero iff none matches |
| Handle.RenameFrom | messaging/handle.py:95-114 | the loop, which runs whether or not the UI is locked, keeps the number of images, the lock and the reports, sends nothing without a socket, and can only fail with the encoder's OverflowError |
| Handle.RenameFromEffect | messaging/handle.py:105-114 | when every broadcast succeeds, the images before i are kept, the matching ones from i are renamed, and one list frame is sent per match |
| Handle.RenameEffect | messaging/handle.py:105-114 | a successful ChangeName renames exactly the matching images and broadcasts once per match |
| Handle.RenameIdempotent | messaging/handle.py:105-112 | renaming twice with the same names gives the same records as renaming once |
| Handle.RenameSameNameChangesIdentity | messaging/handle.py:105-112 | with old = new, an image found by its datablock name but sourced from another file is listed as "other.ase" before and "sprite.png" after |
| Handle.Dispatch | messaging/__init__.py:116-127 | Handlers.process: a frame is dropped unchanged exactly when its tag decodes and has no handler; otherwise the tag's handler parses and executes |
| Handle.Execute | messaging/__init__.py:127 | `msg.execute(**args)` for each handler kind; it never reports an unknown tag itself |
| Handle.RunBatch | messaging/handle.py:41-43 | a batch never reports an unknown tag itself |
| Handle.UnknownTagIgnored | messaging/__init__.py:120-122 | a frame whose tag has no handler changes nothing |
| Handle.EmptyFrameIgnored | messaging/__init__.py:118-122 | an empty frame has the empty tag and is dropped |
| Handle.RegisteredTagRoutes | messaging/__init__.py:124-127 | a registered tag hands the payload after the first byte, read from position 0, to its handler's parse and execute; a parse error escapes |
| Handle.RunBatchAnyBound | messaging/handle.py:41-43 | the run does not depend on the termination bound |
| Handle.RunBatchAppend | messaging/handle.py:41-43 | running a + b is running a, then b from the resulting host state, unless a raised |
| Handle.BatchFrameDispatch | messaging/handle.py:36-43 | processing encode.batch(ms) runs the sub-frames ms in order through the same table |
| Handle.BatchOfOne | messaging/handle.py:41-43 | a batch of one frame has that frame's effect |
| Handle.ExecuteImage | messaging/handle.py:54-63 | Image.execute on the host, the try block and then the except's update_image, is ImageExecute |
| Handle.RenameImage | messaging/handle.py:107-112 | the two assignments leave image i as RenameRecord and change nothing else |
| Handle.Rename | messaging/handle.py:105-114 | the for loop over the host's images is RenameFrom from 0 |
| Handle.Process | messaging/__init__.py:116-127 | Handlers.process on the host is Dispatch |
| Handle.ExecuteArgs | messaging/handle.py:41-43 | execute on the host, and Batch's loop of process calls, is Execute; ChangeName's wait makes one raising report call |
| Addon.BindHost | addon.py:53 | "localhost" exactly when the preference is set, otherwise "0.0.0.0" |
| Addon.StandardTable | addon.py:85-89 | the five handlers, each under its own one-character tag |
| Addon.Addon.constructor | addon.py:31-33 | a new add-on has an empty table and no server |
| Addon.Addon.ServerUp | addon.py:71-73 | server_up: the slot holds a server |
| Addon.Addon.Connected | addon.py:76-78 | connected implies server_up, and holds iff the server's socket is open |
| Addon.Addon.StartServer | addon.py:48-57 | an existing server raises RuntimeError and stays; otherwise the slot holds the server at the chosen host and port, even when start() times out |
| Addon.Addon.StopServer | addon.py:60-63 | an empty slot raises AttributeError; afterwards server_up is false |
| Addon.Addon.SetConnected | sync.py:99-119 | a client connecting or leaving sets the running server's connected flag |
| Addon.Load | addon.py:81-89 | all five registrations pass and the table is StandardTable |

## Left out

- Networking and scheduling (`sync.py`, `async_loop.py`): the aiohttp server, the WebSocket upgrade and the event-loop pumping are not modelled. Sending is the `sent` list of `Util.Host`, and a connection is a boolean. `Server.start` is reduced to whether it times out (`Addon.Addon.StartServer`), and `Server.stop` always succeeds.
- `ChangeName`'s wait for the UI lock (messaging/handle.py:95-102) is modelled as the code runs it: its first report call raises, the bare `except` swallows that, and the rename follows. The un-awaited `asyncio.sleep` is never reached and is not modelled.
- Pixel content: the placeholder image that `update_image` and `new_packed_image` load through temporary files and imbuf, the `img.scale` resampling, and the `/ 255.0` float conversion. Pixels are bytes; the row flip is modelled exactly.
- The length check of the host's pixel write (`foreach_set` / slice assignment) and `img.update()`.
- Operator poll: `texture_list` and the keyword-form `report` are taken to run. Blender would refuse `texture_list` when no server is up, but frames only arrive while one is.
- Util.BroadcastSpec: an encoding error inside an operator is kept as the encoder's OverflowError. Blender re-raises operator failures as RuntimeError.
- `memoryview` read-only and release handling in `_parse` (messaging/__init__.py:86-93), and the log message for unknown tags.
- `Addon.prefs`/`Addon.state`: Blender preferences are parameters of `StartServer`.
- Util.NewPackedImage: the datablock name is always `Basename(name)`. Blender adds a numeric suffix when an image of that name exists (the add-on says so at ui_2d.py:315); the suffix is not modelled.
- Util.Host.CreateImage: the placeholder is appended at the end of the image list. Blender keeps its datablock lists, `bpy.data.images` among them, sorted by name, so it may be listed before older images; the model does not capture that order.
- Handle.NewImageTarget: "left untouched when an image listed before it matches" holds of the order above. With Blender's name order the older image may be listed after the placeholder, and then the placeholder is the one updated.
- Messaging.ByteArray.AddString: `s.encode('utf-8')` raises UnicodeEncodeError on a string holding a lone surrogate, as a path Blender could not decode can. A Dafny `char` cannot be a surrogate, so the model's strings never raise it; the same holds of Utf8.Encode, Encode.TextureListFrame and Util.BroadcastSpec.
- Messaging.Cursor.TakeSint: decodes unsigned as the source does. No handler reads a signed field, so the corrected decode `Messaging.SintAt` is not used by any parse.

## Findings

| source | as written | input that shows it | evidently intended | confidence | as-written member | corrected member |
|---|---|---|---|---|---|---|
| messaging/handle.py:57-63 | the locked branch calls `bpy.ops.pribambase.report({'WARNING'}, "...")` positionally, while the operator takes `message_type`/`message` as keyword properties (util.py:118-119); the call raises ValueError and the bare `except` runs `update_image` | a locked UI, one image matching the name, and pixels that cut into h rows: the image is overwritten and nothing is reported | skip the update and report the warning (`report(message_type='WARNING', message=...)`) | high (not executed) | Handle.ImageExecute, Handle.LockedImageStillUpdated | Handle.ImageExecuteIntended |
| messaging/__init__.py:62-68 | `take_sint` calls `int.from_bytes(..., signed=False)` | `add_sint(ba, -1, 1)` writes `0xFF`; `take_sint(1)` then returns 255 | `signed=True`, so that `take_sint` inverts `add_sint` | high (not executed) | Messaging.SintRoundTripAsWritten, Messaging.SintMinusOneReadsBack255 | Messaging.SintRoundTrip |

The locked `Image` path is a finding about a path the add-on really takes: `Handle.Dispatch`, `Handle.Execute` and `Handle.ExecuteImage` follow the code as written and use `Handle.ImageExecute`, so what they state is what Blender does with each frame today. The intended behaviour is `Handle.ImageExecuteIntended`, with its property proved beside it. `ChangeName`'s wait at messaging/handle.py:97-99 fails the same way, but there the bare `except` only ends the wait, so the rename happens as intended.
